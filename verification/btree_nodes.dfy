/** The nodes of a B-tree as arrays: the loops that shift, split and merge them in place. */
module BTreeNodes {
  import opened Options
  import opened BTrees
  import opened BTreeRemove

  /** Moves the slots from `from` one up, dropping the last, and stores `x` in the gap. */
  method ShiftUp<T>(a: array<T>, from: nat, x: T)
    requires from < a.Length
    modifies a
    ensures a[..] == old(a[..from]) + [x] + old(a[from..a.Length - 1])
  {
    var i := a.Length - 1;
    while i > from
      invariant from <= i < a.Length
      invariant forall k :: 0 <= k <= i ==> a[k] == old(a[k])
      invariant forall k :: i < k < a.Length ==> a[k] == old(a[k - 1])
    {
      a[i] := a[i - 1];
      i := i - 1;
    }
    a[from] := x;
  }

  /** Moves the slots after `from` one down; the last one keeps its contents. */
  method ShiftDown<T>(a: array<T>, from: nat)
    requires from < a.Length
    modifies a
    ensures a[..] == old(a[..from]) + old(a[from + 1..]) + [old(a[a.Length - 1])]
  {
    var i := from;
    while i < a.Length - 1
      invariant from <= i <= a.Length - 1
      invariant forall k :: 0 <= k < from ==> a[k] == old(a[k])
      invariant forall k :: from <= k < i ==> a[k] == old(a[k + 1])
      invariant forall k :: i <= k < a.Length ==> a[k] == old(a[k])
    {
      a[i] := a[i + 1];
      i := i + 1;
    }
  }

  /** The values of the slots in use. */
  function Used<T>(slots: seq<Option<T>>): seq<T> {
    if slots == [] || slots[0].None? then [] else [slots[0].value] + Used(slots[1..])
  }

  predicate Packed<T>(slots: seq<Option<T>>, n: nat) {
    n <= |slots| && forall i :: 0 <= i < |slots| ==> (slots[i].Some? <==> i < n)
  }

  lemma {:induction false} UsedAt<T>(slots: seq<Option<T>>, n: nat)
    requires Packed(slots, n)
    ensures |Used(slots)| == n && forall i :: 0 <= i < n ==> Used(slots)[i] == slots[i].value
  {
    if n > 0 { UsedAt(slots[1..], n - 1); }
  }

  lemma UsedIs<T>(slots: seq<Option<T>>, n: nat, vals: seq<T>)
    requires Packed(slots, n) && |vals| == n && forall i :: 0 <= i < n ==> slots[i].value == vals[i]
    ensures Used(slots) == vals
  {
    UsedAt(slots, n);
  }

  /** The slots when those behind `idx` have moved down and the last one in use is cleared. */
  lemma TakenOut<T>(slots: seq<Option<T>>, n: nat, idx: nat, last: Option<T>)
    requires Packed(slots, n) && idx < n && (n < |slots| ==> last == None)
    ensures var left := (slots[..idx] + slots[idx + 1..] + [last])[n - 1 := None];
            Packed(left, n - 1) && |Used(slots)| == n && Used(left) == Used(slots)[..idx] + Used(slots)[idx + 1..]
  {
    UsedAt(slots, n);
    var was := Used(slots);
    var left := (slots[..idx] + slots[idx + 1..] + [last])[n - 1 := None];
    forall i | 0 <= i < n - 1 ensures left[i] == slots[if i < idx then i else i + 1] {}
    UsedIs(left, n - 1, was[..idx] + was[idx + 1..]);
  }

  lemma PackedInsert(slots: seq<Option<Value>>, n: nat, pos: nat, val: Value)
    requires Packed(slots, n) && pos <= n < |slots|
    ensures Packed(slots[..pos] + [Some(val)] + slots[pos..|slots| - 1], n + 1)
  {
  }

  /** An inner node with children of any kind, values or nodes on the heap. */
  class InternalNode<C> {
    const children: array<Option<C>>
    const keys: array<Key>
    var nchildren: nat

    ghost predicate Valid()
      reads this, children, keys
    {
      children.Length == INTERNAL_MAX && keys.Length == SLOTS && Packed(children[..], nchildren)
    }

    ghost function Kids(): seq<C>
      reads this, children
    {
      Used(children[..])
    }

    lemma KidsAt()
      requires Valid()
      ensures |Kids()| == nchildren <= INTERNAL_MAX && forall i :: 0 <= i < nchildren ==> children[i] == Some(Kids()[i])
    {
      UsedAt(children[..], nchildren);
    }

    constructor ()
      ensures Valid() && nchildren == 0 && keys[..] == Zeros(SLOTS) && Kids() == [] && fresh(children) && fresh(keys)
    {
      children := new Option<C>[INTERNAL_MAX](_ => None);
      keys := new Key[SLOTS](_ => 0);
      nchildren := 0;
      new;
      UsedIs(children[..], 0, []);
      assert keys[..] == Zeros(SLOTS);
    }

    method NextInternal(key: Key) returns (i: nat)
      requires Valid() && nchildren > 0
      ensures nchildren <= INTERNAL_MAX && i == Route(keys[..], nchildren, key, 0)
    {
      i := 0;
      while i < INTERNAL_MAX - 1 && children[i + 1].Some? && key >= keys[i]
        invariant 0 <= i < nchildren && forall j :: 0 <= j < i ==> keys[j] <= key
      {
        i := i + 1;
      }
      RouteIs(keys[..], nchildren, key, i);
    }

    method ShiftInsert(idx: nat, child: C, key: Key)
      requires Valid() && 0 < idx <= nchildren < INTERNAL_MAX
      modifies this, children, keys
      ensures Valid() && old(|Kids()|) == old(nchildren) && nchildren == old(nchildren) + 1
      ensures keys[..] == old(keys[..idx - 1]) + [key] + old(keys[idx - 1..SLOTS - 1])
      ensures Kids() == old(Kids())[..idx] + [child] + old(Kids())[idx..]
    {
      UsedAt(children[..], nchildren);
      ghost var was := Used(children[..]);
      ShiftUp(children, idx, Some(child));
      ShiftUp(keys, idx - 1, key);
      nchildren := nchildren + 1;
      UsedIs(children[..], nchildren, was[..idx] + [child] + was[idx..]);
    }

    method RemoveShift(idx: nat)
      requires Valid() && idx < nchildren
      modifies this, children, keys
      ensures Valid() && old(|Kids()|) == old(nchildren) && nchildren == old(nchildren) - 1
      ensures var start := if idx == 0 then 0 else idx - 1;
              keys[..] == old(keys[..start]) + old(keys[start + 1..]) + [old(keys[SLOTS - 1])]
      ensures Kids() == old(Kids())[..idx] + old(Kids())[idx + 1..]
    {
      UsedAt(children[..], nchildren);
      TakenOut(children[..], nchildren, idx, children[children.Length - 1]);
      ShiftDown(children, idx);
      children[nchildren - 1] := None;
      ShiftDown(keys, if idx == 0 then 0 else idx - 1);
      nchildren := nchildren - 1;
    }

    /** Moves the upper half of a full node to a new sibling. */
    method Split() returns (sibling: InternalNode<C>, siblingKey: Key)
      requires Valid() && nchildren == INTERNAL_MAX
      modifies this, children, keys
      ensures Valid() && fresh(sibling) && fresh(sibling.children) && fresh(sibling.keys) && sibling.Valid()
      ensures old(|Kids()|) == INTERNAL_MAX && nchildren == INTERNAL_MIN && sibling.nchildren == INTERNAL_MAX - INTERNAL_MIN
      ensures siblingKey == old(keys[INTERNAL_MIN - 1])
      ensures keys[..] == old(keys[..INTERNAL_MIN - 1]) + Zeros(SLOTS - INTERNAL_MIN + 1) && Kids() == old(Kids())[..INTERNAL_MIN]
      ensures sibling.keys[..] == old(keys[INTERNAL_MIN..]) + Zeros(INTERNAL_MIN) && sibling.Kids() == old(Kids())[INTERNAL_MIN..]
    {
      UsedAt(children[..], nchildren);
      ghost var was, wasKeys := Used(children[..]), keys[..];
      sibling := new InternalNode<C>();
      var start := INTERNAL_MIN;
      siblingKey := keys[start - 1];
      keys[start - 1] := 0;
      assert forall k :: 0 <= k < SLOTS ==> sibling.keys[..][k] == 0;
      SplitChildren(sibling, start);
      SplitKeys(sibling, start);
      UsedIs(children[..], start, was[..start]);
      UsedIs(sibling.children[..], INTERNAL_MAX - start, was[start..]);
      assert keys[..] == wasKeys[..start - 1] + Zeros(SLOTS - start + 1);
      assert sibling.keys[..] == wasKeys[start..] + Zeros(start);
    }

    method SplitChildren(sibling: InternalNode<C>, start: nat)
      requires children.Length == sibling.children.Length == INTERNAL_MAX && children != sibling.children && sibling != this
      requires start <= INTERNAL_MAX && Packed(children[..], nchildren) && nchildren == INTERNAL_MAX
      requires Packed(sibling.children[..], 0) && sibling.nchildren == 0
      modifies this`nchildren, sibling`nchildren, children, sibling.children
      ensures nchildren == start && sibling.nchildren == INTERNAL_MAX - start
      ensures forall k :: 0 <= k < INTERNAL_MAX ==> children[k] == if k < start then old(children[k]) else None
      ensures forall k :: 0 <= k < INTERNAL_MAX ==>
                sibling.children[k] == if k < INTERNAL_MAX - start then old(children[k + start]) else None
    {
      var i := start;
      while i < INTERNAL_MAX
        invariant start <= i <= INTERNAL_MAX && sibling.nchildren == i - start && nchildren == INTERNAL_MAX - (i - start)
        invariant forall k :: 0 <= k < INTERNAL_MAX ==> children[k] == if start <= k < i then None else old(children[k])
        invariant forall k :: 0 <= k < INTERNAL_MAX ==>
                    sibling.children[k] == if k < i - start then old(children[k + start]) else None
      {
        sibling.children[i - start] := children[i];
        sibling.nchildren := sibling.nchildren + 1;
        children[i] := None;
        nchildren := nchildren - 1;
        i := i + 1;
      }
    }

    method SplitKeys(sibling: InternalNode<C>, start: nat)
      requires keys.Length == sibling.keys.Length == SLOTS && keys != sibling.keys && start <= SLOTS
      requires forall k :: 0 <= k < SLOTS ==> sibling.keys[k] == 0
      modifies keys, sibling.keys
      ensures forall k :: 0 <= k < SLOTS ==> keys[k] == if k < start then old(keys[k]) else 0
      ensures forall k :: 0 <= k < SLOTS ==> sibling.keys[k] == if k < SLOTS - start then old(keys[k + start]) else 0
    {
      var i := start;
      while i < SLOTS
        invariant start <= i <= SLOTS
        invariant forall k :: 0 <= k < SLOTS ==> keys[k] == if start <= k < i then 0 else old(keys[k])
        invariant forall k :: 0 <= k < SLOTS ==> sibling.keys[k] == if k < i - start then old(keys[k + start]) else 0
      {
        sibling.keys[i - start] := keys[i];
        keys[i] := 0;
        i := i + 1;
      }
    }

    /** Takes over the children and separators of `other`, which the parent parts from this node at `sep`. */
    method Merge(sep: Key, other: InternalNode<C>)
      requires Valid() && other.Valid() && other != this && other.children != children && other.keys != keys
      requires 0 < nchildren && 0 < other.nchildren && nchildren + other.nchildren <= INTERNAL_MAX
      modifies this, children, keys, other.children
      ensures Valid() && nchildren == old(nchildren) + other.nchildren
      ensures old(|Kids()|) == old(nchildren) && Kids() == old(Kids()) + old(other.Kids())
      ensures var n1, n2 := old(nchildren), old(other.nchildren);
              keys[..] == if n2 > 1 then old(keys[..])[..n1 - 1] + [sep] + old(other.keys[..])[..n2 - 1] + old(keys[..])[n1 + n2 - 1..]
                          else old(keys[..])
    {
      UsedAt(children[..], nchildren);
      UsedAt(other.children[..], other.nchildren);
      ghost var was, added := Used(children[..]), Used(other.children[..]);
      ghost var wasKeys := keys[..];
      var n1, n2 := nchildren, other.nchildren;
      MoveChildren(other);
      UsedIs(children[..], n1 + n2, was + added);
      if n2 > 1 { CopyKeys(other.keys, n1, n2, sep); }
    }

    method CopyKeys(otherKeys: array<Key>, n1: nat, n2: nat, sep: Key)
      requires keys.Length == otherKeys.Length == SLOTS && keys != otherKeys && 0 < n1 && 1 < n2 && n1 + n2 <= INTERNAL_MAX
      modifies keys
      ensures keys[..] == old(keys[..])[..n1 - 1] + [sep] + otherKeys[..n2 - 1] + old(keys[..])[n1 + n2 - 1..]
    {
      ghost var was := keys[..];
      keys[n1 - 1] := sep;
      var i := 0;
      while i < n2 - 1
        invariant 0 <= i <= n2 - 1 && keys[n1 - 1] == sep
        invariant forall k :: n1 <= k < n1 + i ==> keys[k] == otherKeys[..][k - n1]
        invariant forall k :: 0 <= k < SLOTS && (k < n1 - 1 || k >= n1 + i) ==> keys[k] == was[k]
      {
        keys[n1 - 1 + i + 1] := otherKeys[i];
        i := i + 1;
      }
    }

    method MoveChildren(other: InternalNode<C>)
      requires Valid() && other.Valid() && other != this && other.children != children
      requires nchildren + other.nchildren <= INTERNAL_MAX
      modifies this`nchildren, children, other.children
      ensures nchildren == old(nchildren) + other.nchildren && Valid()
      ensures forall k :: 0 <= k < old(nchildren) ==> children[k] == old(children[k])
      ensures forall k :: old(nchildren) <= k < nchildren ==> children[k] == old(other.children[..])[k - old(nchildren)]
    {
      var n := nchildren;
      var i := 0;
      while i < other.nchildren
        invariant 0 <= i <= other.nchildren && nchildren == n + i
        invariant forall k :: 0 <= k < INTERNAL_MAX && (k < n || k >= n + i) ==> children[k] == old(children[k])
        invariant forall k :: n <= k < n + i ==> children[k] == old(other.children[..])[k - n]
        invariant forall k :: i <= k < INTERNAL_MAX ==> other.children[k] == old(other.children[k])
      {
        children[nchildren] := other.children[i];
        nchildren := nchildren + 1;
        other.children[i] := None;
        i := i + 1;
      }
    }
  }

  class LeafNode {
    const leafs: array<Option<Value>>
    const keys: array<Key>
    var nleafs: nat
    const id: nat

    ghost predicate Valid()
      reads this, leafs, keys
    {
      leafs.Length == LEAF_MAX && keys.Length == SLOTS && Packed(leafs[..], nleafs)
    }

    ghost function Node(): Tree
      reads this, leafs, keys
    {
      Leaf(id, keys[..], Used(leafs[..]))
    }

    constructor (id: nat)
      ensures Valid() && nleafs == 0 && Node() == Leaf(id, Zeros(SLOTS), []) && fresh(leafs) && fresh(keys) && this.id == id
    {
      leafs := new Option<Value>[LEAF_MAX](_ => None);
      keys := new Key[SLOTS](_ => 0);
      nleafs := 0;
      this.id := id;
      new;
      UsedIs(leafs[..], 0, []);
      assert keys[..] == Zeros(SLOTS);
    }

    method NextLeaf(key: Key) returns (i: nat)
      requires Valid() && Rising(keys[..], nleafs)
      ensures |Node().keys| == SLOTS && |Node().vals| == nleafs && i == Position(Node().keys, nleafs, key, 0)
    {
      UsedAt(leafs[..], nleafs);
      i := 0;
      while i < LEAF_MAX && leafs[i].Some? && key > keys[i]
        invariant 0 <= i <= nleafs && forall j :: 0 <= j < i ==> keys[j] < key
      {
        i := i + 1;
      }
      PositionIs(keys[..], nleafs, key, i);
    }

    /** Stores a new key, or reports that it is there already. */
    method Insert(key: Key, val: Value) returns (inserted: bool, pos: nat)
      requires Valid() && nleafs < LEAF_MAX && Rising(keys[..], nleafs)
      modifies this`nleafs, leafs, keys
      ensures Valid() && old(|Node().keys| == SLOTS && |Node().vals| == nleafs)
      ensures InsertInLeaf(old(Node()), key, val) == InsertResult(Node(), inserted, Place(id, pos), None)
    {
      UsedAt(leafs[..], nleafs);
      pos := NextLeaf(key);
      inserted := keys[pos] != key || leafs[pos].None?;
      if inserted { ShiftInsert(pos, key, val); }
    }

    method ShiftInsert(pos: nat, key: Key, val: Value)
      requires Valid() && pos <= nleafs < LEAF_MAX
      modifies this`nleafs, leafs, keys
      ensures Valid() && old(|Node().keys| == SLOTS && |Node().vals| == nleafs)
      ensures Node() == Leaf(id, old(Node().keys)[..pos] + [key] + old(Node().keys)[pos..SLOTS - 1],
                             old(Node().vals)[..pos] + [val] + old(Node().vals)[pos..])
    {
      UsedAt(leafs[..], nleafs);
      ghost var before, was := leafs[..], Used(leafs[..]);
      ShiftUp(leafs, pos, None);
      ShiftUp(keys, pos, key);
      nleafs := nleafs + 1;
      leafs[pos] := Some(val);
      assert leafs[..] == before[..pos] + [Some(val)] + before[pos..LEAF_MAX - 1];
      PackedInsert(before, nleafs - 1, pos, val);
      UsedIs(leafs[..], nleafs, was[..pos] + [val] + was[pos..]);
    }

    method RemoveAt(idx: nat) returns (val: Value)
      requires Valid() && idx < nleafs
      modifies this`nleafs, leafs, keys
      ensures Valid() && old(|Node().keys| == SLOTS && |Node().vals| == nleafs) && nleafs == old(nleafs) - 1
      ensures val == old(Node().vals)[idx] && Node() == RemoveShiftLeaf(old(Node()), idx)
    {
      ghost var was := leafs[..];
      UsedAt(was, nleafs);
      val := leafs[idx].value;
      leafs[idx] := None;
      ghost var last := leafs[leafs.Length - 1];
      TakenOut(was, nleafs, idx, last);
      assert leafs[..][..idx] == was[..idx] && leafs[..][idx + 1..] == was[idx + 1..];
      ShiftDown(leafs, idx);
      ShiftDown(keys, idx);
      assert leafs[..] == was[..idx] + was[idx + 1..] + [last];
      leafs[nleafs - 1] := None;
      nleafs := nleafs - 1;
    }

    /** Moves the upper half of a full leaf to a new one. */
    method Split(siblingId: nat) returns (sibling: LeafNode, siblingKey: Key)
      requires Valid() && nleafs == LEAF_MAX
      modifies this`nleafs, leafs, keys
      ensures Valid() && fresh(sibling) && fresh(sibling.leafs) && fresh(sibling.keys) && sibling.Valid()
      ensures old(|Node().keys| == SLOTS && Full(Node()))
      ensures siblingKey == SplitKey(old(Node())) && Node() == LeftHalf(old(Node()))
      ensures sibling.Node() == RightHalf(old(Node()), siblingId)
    {
      UsedAt(leafs[..], nleafs);
      ghost var was, wasKeys := Used(leafs[..]), keys[..];
      sibling := new LeafNode(siblingId);
      assert forall k :: 0 <= k < SLOTS ==> sibling.keys[..][k] == 0;
      var start := LEAF_MIN;
      siblingKey := keys[start];
      MoveUpper(sibling, start);
      UsedIs(leafs[..], start, was[..start]);
      UsedIs(sibling.leafs[..], LEAF_MAX - start, was[start..]);
      assert keys[..] == wasKeys[..start] + Zeros(SLOTS - start);
      assert sibling.keys[..] == wasKeys[start..] + Zeros(start);
    }

    method MoveUpper(sibling: LeafNode, start: nat)
      requires leafs.Length == sibling.leafs.Length == LEAF_MAX && leafs != sibling.leafs && sibling != this && start <= LEAF_MAX
      requires keys.Length == sibling.keys.Length == SLOTS && keys != sibling.keys
      requires nleafs == LEAF_MAX && sibling.nleafs == 0
      requires forall k :: 0 <= k < LEAF_MAX ==> sibling.leafs[k] == None && sibling.keys[k] == 0
      modifies this`nleafs, sibling`nleafs, leafs, sibling.leafs, keys, sibling.keys
      ensures nleafs == start && sibling.nleafs == LEAF_MAX - start
      ensures forall k :: 0 <= k < LEAF_MAX ==> leafs[k] == if k < start then old(leafs[k]) else None
      ensures forall k :: 0 <= k < LEAF_MAX ==> keys[k] == if k < start then old(keys[k]) else 0
      ensures forall k :: 0 <= k < LEAF_MAX ==> sibling.leafs[k] == if k < LEAF_MAX - start then old(leafs[k + start]) else None
      ensures forall k :: 0 <= k < LEAF_MAX ==> sibling.keys[k] == if k < LEAF_MAX - start then old(keys[k + start]) else 0
    {
      var i := start;
      while i < LEAF_MAX
        invariant start <= i <= LEAF_MAX && sibling.nleafs == i - start && nleafs == LEAF_MAX - (i - start)
        invariant forall k :: 0 <= k < LEAF_MAX ==> leafs[k] == if start <= k < i then None else old(leafs[k])
        invariant forall k :: 0 <= k < LEAF_MAX ==> keys[k] == if start <= k < i then 0 else old(keys[k])
        invariant forall k :: 0 <= k < LEAF_MAX ==> sibling.leafs[k] == if k < i - start then old(leafs[k + start]) else None
        invariant forall k :: 0 <= k < LEAF_MAX ==> sibling.keys[k] == if k < i - start then old(keys[k + start]) else 0
      {
        sibling.leafs[i - start] := leafs[i];
        sibling.keys[i - start] := keys[i];
        sibling.nleafs := sibling.nleafs + 1;
        leafs[i], keys[i] := None, 0;
        nleafs := nleafs - 1;
        i := i + 1;
      }
    }

    /** Takes over the entries of `other`. */
    method Merge(other: LeafNode)
      requires Valid() && other.Valid() && other != this && other.leafs != leafs && other.keys != keys
      requires nleafs + other.nleafs <= LEAF_MAX
      modifies this`nleafs, leafs, keys, other.leafs
      ensures Valid() && nleafs == old(nleafs) + other.nleafs
      ensures old(Mergeable(Node(), other.Node())) && Node() == JoinLeaf(old(Node()), old(other.Node()))
    {
      UsedAt(leafs[..], nleafs);
      UsedAt(other.leafs[..], other.nleafs);
      ghost var was, added := Used(leafs[..]), Used(other.leafs[..]);
      MoveEntries(other);
      UsedIs(leafs[..], nleafs, was + added);
    }

    method MoveEntries(other: LeafNode)
      requires Valid() && other.Valid() && other != this && other.leafs != leafs && other.keys != keys
      requires nleafs + other.nleafs <= LEAF_MAX
      modifies this`nleafs, leafs, keys, other.leafs
      ensures nleafs == old(nleafs) + other.nleafs && Packed(leafs[..], nleafs)
      ensures forall k :: 0 <= k < old(nleafs) ==> leafs[k] == old(leafs[k])
      ensures forall k :: old(nleafs) <= k < nleafs ==> leafs[k] == old(other.leafs[..])[k - old(nleafs)]
      ensures keys[..] == old(keys[..])[..old(nleafs)] + old(other.keys[..])[..other.nleafs] + old(keys[..])[nleafs..]
    {
      var n := nleafs;
      var i := 0;
      while i < other.nleafs
        invariant 0 <= i <= other.nleafs && nleafs == n + i && other.keys[..] == old(other.keys[..])
        invariant forall k :: 0 <= k < LEAF_MAX && (k < n || k >= n + i) ==> leafs[k] == old(leafs[k]) && keys[k] == old(keys[k])
        invariant forall k :: n <= k < n + i ==> leafs[k] == old(other.leafs[..])[k - n] && keys[k] == old(other.keys[..])[k - n]
        invariant forall k :: i <= k < LEAF_MAX ==> other.leafs[k] == old(other.leafs[k])
      {
        leafs[nleafs] := other.leafs[i];
        keys[nleafs] := other.keys[i];
        nleafs := nleafs + 1;
        other.leafs[i] := None;
        i := i + 1;
      }
    }
  }
}
