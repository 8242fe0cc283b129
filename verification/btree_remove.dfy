/** Removal from a B-tree: lazy merges with the right sibling, and the one case in which a separator is lost. */
module BTreeRemove {
  import opened Options
  import opened BTrees

  // ---- the slots of a node

  function RemoveShift(t: Tree, idx: nat): Tree
    requires t.Internal? && |t.keys| == SLOTS && idx < |t.children| <= INTERNAL_MAX
  {
    var start := if idx == 0 then 0 else idx - 1;
    Internal(t.keys[..start] + t.keys[start + 1..] + [t.keys[SLOTS - 1]], t.children[..idx] + t.children[idx + 1..])
  }

  function RemoveShiftLeaf(t: Tree, idx: nat): Tree
    requires t.Leaf? && |t.keys| == SLOTS && idx < |t.vals| <= LEAF_MAX
  {
    Leaf(t.id, t.keys[..idx] + t.keys[idx + 1..] + [t.keys[SLOTS - 1]], t.vals[..idx] + t.vals[idx + 1..])
  }

  /** The second node's separators are copied only when it has some; its first child keeps the slot as it is. */
  function JoinInternal(a: Tree, sep: Key, b: Tree): Tree
    requires a.Internal? && b.Internal? && |a.keys| == |b.keys| == SLOTS
    requires 0 < |a.children| && 0 < |b.children| && |a.children| + |b.children| <= INTERNAL_MAX
  {
    var n1, n2 := |a.children|, |b.children|;
    Internal(if n2 > 1 then a.keys[..n1 - 1] + [sep] + b.keys[..n2 - 1] + a.keys[n1 + n2 - 1..] else a.keys,
             a.children + b.children)
  }

  function JoinLeaf(a: Tree, b: Tree): Tree
    requires a.Leaf? && b.Leaf? && |a.keys| == |b.keys| == SLOTS && |a.vals| + |b.vals| <= LEAF_MAX
  {
    var n1, n2 := |a.vals|, |b.vals|;
    Leaf(a.id, a.keys[..n1] + b.keys[..n2] + a.keys[n1 + n2..], a.vals + b.vals)
  }

  predicate Mergeable(a: Tree, b: Tree) {
    match (a, b)
    case (Leaf(_, ka, va), Leaf(_, kb, vb)) => |ka| == |kb| == SLOTS && |va| + |vb| <= LEAF_MAX
    case (Internal(ka, ca), Internal(kb, cb)) =>
      |ka| == |kb| == SLOTS && 0 < |ca| && 0 < |cb| && |ca| + |cb| <= INTERNAL_MAX
    case _ => false
  }

  function Join(a: Tree, sep: Key, b: Tree): Tree
    requires Mergeable(a, b)
  {
    if a.Leaf? then JoinLeaf(a, b) else JoinInternal(a, sep, b)
  }

  /** Merges child `i` with its right sibling when both fit in one node. */
  function MergeRight(t: Tree, i: nat): Tree
    requires t.Internal? && |t.keys| == SLOTS && |t.children| <= INTERNAL_MAX
  {
    if i + 1 < |t.children| && Mergeable(t.children[i], t.children[i + 1]) then
      RemoveShift(t.(children := t.children[i := Join(t.children[i], t.keys[i], t.children[i + 1])]), i + 1)
    else t
  }

  predicate Empty(t: Tree) {
    match t
    case Leaf(_, _, vals) => vals == []
    case Internal(_, children) => children == []
  }

  // ---- removal

  datatype RemoveResult = RemoveResult(tree: Tree, removed: Option<Value>, minChanged: bool, newMin: Key)

  function RemoveFromLeaf(t: Tree, key: Key): RemoveResult
    requires t.Leaf? && |t.keys| == SLOTS && |t.vals| <= LEAF_MAX
  {
    var pos := Position(t.keys, |t.vals|, key, 0);
    if pos == |t.vals| || t.keys[pos] != key then RemoveResult(t, None, false, 0)
    else
      var after := RemoveShiftLeaf(t, pos);
      RemoveResult(after, Some(t.vals[pos]), pos == 0, after.keys[0])
  }

  /** The parent with the new child in place, its separator lifted, and without the child when that became empty. */
  function Kept(t: Tree, i: nat, r: RemoveResult): (kept: Tree)
    requires t.Internal? && |t.keys| == SLOTS && i < |t.children| <= INTERNAL_MAX
    ensures kept.Internal? && |kept.keys| == SLOTS && |kept.children| <= INTERNAL_MAX
  {
    var placed := Placed(t, i, r);
    if Empty(r.tree) then RemoveShift(placed, i) else placed
  }

  function Placed(t: Tree, i: nat, r: RemoveResult): Tree
    requires t.Internal? && |t.keys| == SLOTS && i < |t.children| <= INTERNAL_MAX
  {
    Internal(if i > 0 && r.minChanged then t.keys[i - 1 := r.newMin] else t.keys, t.children[i := r.tree])
  }

  /** The parent's part: new separator, removal of an emptied child, merge with the right sibling. */
  function Repair(t: Tree, i: nat, r: RemoveResult): RemoveResult
    requires t.Internal? && |t.keys| == SLOTS && i < |t.children| <= INTERNAL_MAX
  {
    RemoveResult(MergeRight(Kept(t, i, r), i), r.removed, i == 0 && (r.minChanged || Empty(r.tree)),
                 if i == 0 && Empty(r.tree) then t.keys[0] else r.newMin)
  }

  function RemoveNode(t: Tree, key: Key, ghost h: nat): RemoveResult
    requires Shaped(t, h)
    decreases h
  {
    if t.Leaf? then RemoveFromLeaf(t, key)
    else
      var i := RouteOf(t, key);
      Repair(t, i, RemoveNode(t.children[i], key, h - 1))
  }

  /** The root gives way to its only child when that is an internal node. */
  function Collapsed(t: Tree): Tree {
    if t.Internal? && |t.children| == 1 && t.children[0].Internal? then t.children[0] else t
  }

  // ---- ranges

  lemma {:induction false} Widen(t: Tree, h: nat, lo: nat, hi: nat, lo': nat, hi': nat)
    requires Valid(t, h, lo, hi) && lo' <= lo && hi <= hi'
    ensures Valid(t, h, lo', hi')
    decreases h
  {
    if t.Internal? {
      forall i: nat | i < |t.children| ensures Valid(t.children[i], h - 1, Low(t, i, lo'), High(t, i, hi')) {
        ChildValid(t, h, lo, hi, i);
        Widen(t.children[i], h - 1, Low(t, i, lo), High(t, i, hi), Low(t, i, lo'), High(t, i, hi'));
      }
      InternalValid(t, h, lo', hi');
    }
  }

  lemma ShiftSlots(t: Tree, idx: nat, s: Tree, start: nat)
    requires t.Internal? && |t.keys| == SLOTS && idx < |t.children| <= INTERNAL_MAX && s == RemoveShift(t, idx)
    requires start == if idx == 0 then 0 else idx - 1
    ensures s.Internal? && |s.keys| == SLOTS && |s.children| == |t.children| - 1
    ensures forall j: nat :: j < |s.children| ==> s.children[j] == t.children[if j < idx then j else j + 1]
    ensures forall j: nat :: j < SLOTS - 1 ==> s.keys[j] == t.keys[if j < start then j else j + 1]
  {
  }

  /** Children `i` and `i + 1` replaced by one that covers both ranges. */
  lemma JoinedValid(t: Tree, h: nat, lo: nat, hi: nat, i: nat, joined: Tree)
    requires Valid(t, h, lo, hi) && h > 0 && t.Internal? && |t.keys| == SLOTS && i + 1 < |t.children| <= INTERNAL_MAX
    requires Valid(joined, h - 1, Low(t, i, lo), High(t, i + 1, hi))
    ensures Valid(RemoveShift(t.(children := t.children[i := joined]), i + 1), h, lo, hi)
  {
    forall j: nat | j < |t.children| ensures Valid(t.children[j], h - 1, Low(t, j, lo), High(t, j, hi)) {
      ChildValid(t, h, lo, hi, j);
    }
    ReplaceSeparators(t, h, lo, hi);
    JoinedFits(t, h, lo, hi, i, joined);
  }

  lemma JoinedFits(t: Tree, h: nat, lo: nat, hi: nat, i: nat, joined: Tree)
    requires t.Internal? && |t.keys| == SLOTS && i + 1 < |t.children| <= INTERNAL_MAX && h > 0
    requires NotFalling(t.keys, |t.children| - 1) && forall j :: 0 <= j < |t.children| - 1 ==> lo <= t.keys[j] <= hi
    requires forall j: nat :: j < |t.children| ==> Valid(t.children[j], h - 1, Low(t, j, lo), High(t, j, hi))
    requires Valid(joined, h - 1, Low(t, i, lo), High(t, i + 1, hi))
    ensures Valid(RemoveShift(t.(children := t.children[i := joined]), i + 1), h, lo, hi)
  {
    hide Valid, RemoveShift;
    var placed := t.(children := t.children[i := joined]);
    var s := RemoveShift(placed, i + 1);
    ShiftSlots(placed, i + 1, s, i);
    forall j: nat | j < |s.children| ensures Valid(s.children[j], h - 1, Low(s, j, lo), High(s, j, hi)) {
      if j < i {
        assert Low(s, j, lo) == Low(t, j, lo) && High(s, j, hi) == High(t, j, hi);
      } else if j == i {
        assert Low(s, j, lo) == Low(t, i, lo) && High(s, j, hi) == High(t, i + 1, hi);
      } else {
        assert Low(s, j, lo) == Low(t, j + 1, lo) && High(s, j, hi) == High(t, j + 1, hi);
      }
    }
    InternalValid(s, h, lo, hi);
  }

  lemma DropFirstValid(t: Tree, h: nat, lo: nat, hi: nat)
    requires Valid(t, h, lo, hi) && t.Internal? && |t.keys| == SLOTS && 1 < |t.children| <= INTERNAL_MAX
    ensures lo <= t.keys[0] <= hi
    ensures Valid(RemoveShift(t, 0), h, t.keys[0], hi) && Valid(RemoveShift(t, 0), h, lo, hi)
  {
    KeySlots(t, h, lo, hi);
    forall j: nat | j < |t.children| ensures Valid(t.children[j], h - 1, Low(t, j, lo), High(t, j, hi)) {
      ChildValid(t, h, lo, hi, j);
    }
    ReplaceSeparators(t, h, lo, hi);
    DropFirstFits(t, h, lo, hi);
    Widen(RemoveShift(t, 0), h, t.keys[0], hi, lo, hi);
  }

  lemma DropFirstFits(t: Tree, h: nat, lo: nat, hi: nat)
    requires t.Internal? && |t.keys| == SLOTS && 1 < |t.children| <= INTERNAL_MAX && h > 0
    requires NotFalling(t.keys, |t.children| - 1) && forall j :: 0 <= j < |t.children| - 1 ==> lo <= t.keys[j] <= hi
    requires forall j: nat :: j < |t.children| ==> Valid(t.children[j], h - 1, Low(t, j, lo), High(t, j, hi))
    ensures Valid(RemoveShift(t, 0), h, t.keys[0], hi)
  {
    hide Valid, RemoveShift;
    var s := RemoveShift(t, 0);
    ShiftSlots(t, 0, s, 0);
    forall j: nat | j < |s.children| ensures Valid(s.children[j], h - 1, Low(s, j, t.keys[0]), High(s, j, hi)) {
      assert Low(s, j, t.keys[0]) == Low(t, j + 1, lo) && High(s, j, hi) == High(t, j + 1, hi);
    }
    InternalValid(s, h, t.keys[0], hi);
  }

  /** Taking out one child leaves a valid node, as long as another one remains. */
  lemma RemoveShiftValid(t: Tree, h: nat, lo: nat, hi: nat, idx: nat)
    requires Valid(t, h, lo, hi) && h > 0 && t.Internal? && |t.keys| == SLOTS && idx < |t.children| <= INTERNAL_MAX && |t.children| > 1
    ensures Valid(RemoveShift(t, idx), h, lo, hi)
  {
    if idx == 0 {
      DropFirstValid(t, h, lo, hi);
    } else {
      var i := idx - 1;
      ChildValid(t, h, lo, hi, i);
      KeySlots(t, h, lo, hi);
      ReplaceSeparators(t, h, lo, hi);
      Widen(t.children[i], h - 1, Low(t, i, lo), High(t, i, hi), Low(t, i, lo), High(t, i + 1, hi));
      JoinedValid(t, h, lo, hi, i, t.children[i]);
      assert t.(children := t.children[i := t.children[i]]) == t;
    }
  }

  // ---- searching by children

  /** A valid node finds a value exactly when one of its children does. */
  lemma InternalFind(t: Tree, h: nat, lo: nat, hi: nat, k: Key, v: Value)
    requires Valid(t, h, lo, hi) && t.Internal?
    ensures Find(t, k) == Some(v) <==> exists j :: 0 <= j < |t.children| && Find(t.children[j], k) == Some(v)
  {
    hide Valid, Find;
    KeySlots(t, h, lo, hi);
    FindRouted(t, k);
    if j: nat :| j < |t.children| && Find(t.children[j], k) == Some(v) {
      OnlyRouted(t, h, lo, hi, k, j);
    }
  }

  lemma OnlyRouted(t: Tree, h: nat, lo: nat, hi: nat, k: Key, j: nat)
    requires Valid(t, h, lo, hi) && t.Internal? && j < |t.children| && |t.keys| == SLOTS && |t.children| <= INTERNAL_MAX
    requires Find(t.children[j], k).Some?
    ensures j == RouteOf(t, k)
  {
    hide Valid, Find;
    ChildValid(t, h, lo, hi, j);
    FoundIsKey(t.children[j], k);
    KeysInRange(t.children[j], h - 1, Low(t, j, lo), High(t, j, hi), k);
    RouteRange(t, h, lo, hi, k, j);
  }

  // ---- joining two nodes

  /** The key that parts the two halves in the joined node: a lone second child gets whatever the slot held. */
  function JoinKey(a: Tree, sep: Key, b: Tree): Key
    requires Mergeable(a, b)
  {
    if a.Internal? && |b.children| == 1 then a.keys[|a.children| - 1] else sep
  }

  lemma JoinLeafValid(a: Tree, sep: Key, b: Tree, lo: nat, hi: nat)
    requires Mergeable(a, b) && a.Leaf? && Valid(a, 0, lo, sep) && Valid(b, 0, sep, hi) && lo <= sep <= hi
    ensures Valid(Join(a, sep, b), 0, lo, hi)
    ensures forall k: Key, v: Value :: Find(Join(a, sep, b), k) == Some(v) <==> Find(a, k) == Some(v) || Find(b, k) == Some(v)
  {
    var j := JoinLeaf(a, b);
    JoinLeafSlots(a, b, j);
    JoinLeafRises(a, sep, b, lo, hi, j);
    forall k: Key, v: Value ensures Find(j, k) == Some(v) <==> Find(a, k) == Some(v) || Find(b, k) == Some(v) {
      JoinLeafFind(a, sep, b, lo, hi, j, k);
    }
  }

  lemma JoinLeafSlots(a: Tree, b: Tree, j: Tree)
    requires Mergeable(a, b) && a.Leaf? && j == JoinLeaf(a, b)
    ensures |j.keys| == SLOTS && |j.vals| == |a.vals| + |b.vals| && j.Leaf?
    ensures forall i: nat :: i < |a.vals| ==> j.keys[i] == a.keys[i] && j.vals[i] == a.vals[i]
    ensures forall i: nat :: |a.vals| <= i < |j.vals| ==> j.keys[i] == b.keys[i - |a.vals|] && j.vals[i] == b.vals[i - |a.vals|]
  {
  }

  lemma JoinLeafRises(a: Tree, sep: Key, b: Tree, lo: nat, hi: nat, j: Tree)
    requires Mergeable(a, b) && a.Leaf? && Valid(a, 0, lo, sep) && Valid(b, 0, sep, hi) && lo <= sep <= hi && j == JoinLeaf(a, b)
    ensures Valid(j, 0, lo, hi)
  {
    JoinLeafSlots(a, b, j);
    hide JoinLeaf;
  }

  lemma LeafFind(t: Tree, k: Key, i: nat)
    requires t.Leaf? && |t.keys| == SLOTS && |t.vals| <= LEAF_MAX && Rising(t.keys, |t.vals|) && i < |t.vals| && t.keys[i] == k
    ensures Find(t, k) == Some(t.vals[i])
  {
    hide Position;
    PositionIs(t.keys, |t.vals|, k, i);
  }

  lemma FoundInLeaf(t: Tree, k: Key) returns (i: nat)
    requires t.Leaf? && Find(t, k).Some?
    ensures i < |t.vals| && i < |t.keys| && t.keys[i] == k && Find(t, k) == Some(t.vals[i])
  {
    i := Position(t.keys, |t.vals|, k, 0);
  }

  lemma JoinLeafFind(a: Tree, sep: Key, b: Tree, lo: nat, hi: nat, j: Tree, k: Key)
    requires Mergeable(a, b) && a.Leaf? && Valid(a, 0, lo, sep) && Valid(b, 0, sep, hi) && lo <= sep <= hi && j == JoinLeaf(a, b)
    ensures forall v: Value :: Find(j, k) == Some(v) <==> Find(a, k) == Some(v) || Find(b, k) == Some(v)
  {
    JoinLeafSlots(a, b, j);
    JoinLeafRises(a, sep, b, lo, hi, j);
    KeySlots(j, 0, lo, hi);
    KeySlots(a, 0, lo, sep);
    KeySlots(b, 0, sep, hi);
    hide Find, JoinLeaf, Valid;
    if Find(a, k).Some? { var i := FoundInLeaf(a, k); LeafFind(j, k, i); }
    if Find(b, k).Some? { var i := FoundInLeaf(b, k); LeafFind(j, k, i + |a.vals|); }
    if Find(j, k).Some? {
      var i := FoundInLeaf(j, k);
      if i < |a.vals| { LeafFind(a, k, i); } else { LeafFind(b, k, i - |a.vals|); }
    }
  }

  lemma JoinInternalSlots(a: Tree, sep: Key, b: Tree, j: Tree, n: nat)
    requires Mergeable(a, b) && a.Internal? && j == JoinInternal(a, sep, b) && n == |a.children|
    ensures j.Internal? && |j.keys| == SLOTS && |j.children| == n + |b.children|
    ensures forall i: nat :: i < |j.children| ==> j.children[i] == if i < n then a.children[i] else b.children[i - n]
    ensures forall i: nat :: i < |j.children| - 1 ==>
              j.keys[i] == if i < n - 1 then a.keys[i] else if i == n - 1 then JoinKey(a, sep, b) else b.keys[i - n]
  {
  }

  lemma JoinInternalValid(a: Tree, sep: Key, b: Tree, h: nat, lo: nat, hi: nat)
    requires Mergeable(a, b) && a.Internal? && lo <= JoinKey(a, sep, b) <= hi
    requires Valid(a, h, lo, JoinKey(a, sep, b)) && Valid(b, h, JoinKey(a, sep, b), hi)
    ensures Valid(Join(a, sep, b), h, lo, hi)
  {
    var s, n := JoinKey(a, sep, b), |a.children|;
    forall i: nat | i < n ensures Valid(a.children[i], h - 1, Low(a, i, lo), High(a, i, s)) { ChildValid(a, h, lo, s, i); }
    forall i: nat | i < |b.children| ensures Valid(b.children[i], h - 1, Low(b, i, s), High(b, i, hi)) { ChildValid(b, h, s, hi, i); }
    ReplaceSeparators(a, h, lo, s);
    ReplaceSeparators(b, h, s, hi);
    JoinInternalFits(a, sep, b, h, lo, hi, s);
  }

  lemma JoinInternalFits(a: Tree, sep: Key, b: Tree, h: nat, lo: nat, hi: nat, s: Key)
    requires Mergeable(a, b) && a.Internal? && lo <= s <= hi && s == JoinKey(a, sep, b) && h > 0
    requires forall i: nat :: i < |a.children| ==> Valid(a.children[i], h - 1, Low(a, i, lo), High(a, i, s))
    requires forall i: nat :: i < |b.children| ==> Valid(b.children[i], h - 1, Low(b, i, s), High(b, i, hi))
    requires NotFalling(a.keys, |a.children| - 1) && forall i :: 0 <= i < |a.children| - 1 ==> lo <= a.keys[i] <= s
    requires NotFalling(b.keys, |b.children| - 1) && forall i :: 0 <= i < |b.children| - 1 ==> s <= b.keys[i] <= hi
    ensures Valid(Join(a, sep, b), h, lo, hi)
  {
    hide Valid, JoinInternal, JoinKey;
    var j, n := JoinInternal(a, sep, b), |a.children|;
    JoinInternalSlots(a, sep, b, j, n);
    forall i: nat | i < |j.children| ensures Valid(j.children[i], h - 1, Low(j, i, lo), High(j, i, hi)) {
      if i < n {
        assert Low(j, i, lo) == Low(a, i, lo) && High(j, i, hi) == High(a, i, s);
      } else {
        assert Low(j, i, lo) == Low(b, i - n, s) && High(j, i, hi) == High(b, i - n, hi);
      }
    }
    InternalValid(j, h, lo, hi);
  }

  lemma JoinFind(a: Tree, sep: Key, b: Tree, h: nat, lo: nat, hi: nat, k: Key, v: Value)
    requires Mergeable(a, b) && lo <= JoinKey(a, sep, b) <= hi
    requires Valid(a, h, lo, JoinKey(a, sep, b)) && Valid(b, h, JoinKey(a, sep, b), hi)
    ensures Valid(Join(a, sep, b), h, lo, hi)
    ensures Find(Join(a, sep, b), k) == Some(v) <==> Find(a, k) == Some(v) || Find(b, k) == Some(v)
  {
    var s := JoinKey(a, sep, b);
    if a.Leaf? {
      JoinLeafValid(a, sep, b, lo, hi);
    } else {
      JoinInternalValid(a, sep, b, h, lo, hi);
      JoinedChildrenFind(a, sep, b, h, lo, hi, s, k, v);
    }
  }

  lemma JoinedChildrenFind(a: Tree, sep: Key, b: Tree, h: nat, lo: nat, hi: nat, s: Key, k: Key, v: Value)
    requires Mergeable(a, b) && a.Internal? && Valid(a, h, lo, s) && Valid(b, h, s, hi) && Valid(JoinInternal(a, sep, b), h, lo, hi)
    ensures Find(JoinInternal(a, sep, b), k) == Some(v) <==> Find(a, k) == Some(v) || Find(b, k) == Some(v)
  {
    hide Valid, Find, JoinInternal;
    var j, n := JoinInternal(a, sep, b), |a.children|;
    JoinInternalSlots(a, sep, b, j, n);
    InternalFind(j, h, lo, hi, k, v);
    InternalFind(a, h, lo, s, k, v);
    InternalFind(b, h, s, hi, k, v);
    if i: nat :| i < |b.children| && Find(b.children[i], k) == Some(v) { assert j.children[n + i] == b.children[i]; }
    if i: nat :| i < |a.children| && Find(a.children[i], k) == Some(v) { assert j.children[i] == a.children[i]; }
  }

  // ---- trees without empty nodes

  predicate Dense(t: Tree) {
    match t
    case Leaf(_, _, vals) => vals != []
    case Internal(_, children) => children != [] && forall i :: 0 <= i < |children| ==> Dense(children[i])
  }

  lemma {:induction false} DenseHasKey(t: Tree, h: nat) returns (k: Key)
    requires Dense(t) && Shaped(t, h)
    ensures k in Keys(t)
    decreases h
  {
    if t.Leaf? {
      k := t.keys[0];
    } else {
      k := DenseHasKey(t.children[0], h - 1);
    }
  }

  /** Without empty nodes, the keys alone decide which range a tree is valid for. */
  lemma {:induction false} Tighten(t: Tree, h: nat, lo: nat, hi: nat, lo': nat, hi': nat)
    requires Valid(t, h, lo, hi) && Dense(t) && forall k :: k in Keys(t) ==> lo' <= k < hi'
    ensures Valid(t, h, lo', hi')
    decreases h
  {
    if t.Leaf? {
      assert forall i :: 0 <= i < |t.vals| ==> t.keys[i] in Keys(t);
    } else {
      KeySlots(t, h, lo, hi);
      hide Valid;
      forall i: nat | i < |t.children| - 1 ensures lo' <= t.keys[i] <= hi' {
        ChildValid(t, h, lo, hi, i);
        ChildValid(t, h, lo, hi, i + 1);
        SeparatorBetween(t, h, lo, hi, i);
      }
      forall i: nat | i < |t.children| ensures Valid(t.children[i], h - 1, Low(t, i, lo'), High(t, i, hi')) {
        ChildValid(t, h, lo, hi, i);
        forall k | k in Keys(t.children[i]) ensures Low(t, i, lo') <= k < High(t, i, hi') {
          KeysInRange(t.children[i], h - 1, Low(t, i, lo), High(t, i, hi), k);
          assert k in Keys(t);
        }
        Tighten(t.children[i], h - 1, Low(t, i, lo), High(t, i, hi), Low(t, i, lo'), High(t, i, hi'));
      }
      InternalValid(t, h, lo', hi');
    }
  }

  /** A separator lies between a key on its left and one on its right. */
  lemma SeparatorBetween(t: Tree, h: nat, lo: nat, hi: nat, i: nat)
    requires Valid(t, h, lo, hi) && Dense(t) && t.Internal? && i + 1 < |t.children| && |t.keys| == SLOTS && |t.children| <= INTERNAL_MAX
    ensures exists k, k' :: k in Keys(t) && k' in Keys(t) && k < t.keys[i] <= k'
  {
    hide Valid;
    ChildShaped(t, h, lo, hi, i);
    ChildShaped(t, h, lo, hi, i + 1);
    ChildValid(t, h, lo, hi, i);
    ChildValid(t, h, lo, hi, i + 1);
    var k := DenseHasKey(t.children[i], h - 1);
    var k' := DenseHasKey(t.children[i + 1], h - 1);
    KeysInRange(t.children[i], h - 1, Low(t, i, lo), High(t, i, hi), k);
    KeysInRange(t.children[i + 1], h - 1, Low(t, i + 1, lo), High(t, i + 1, hi), k');
    assert k in Keys(t) && k' in Keys(t);
  }

  // ---- merging with the right sibling

  predicate LoneSibling(t: Tree, i: nat) {
    && t.Internal? && i + 1 < |t.children| && Mergeable(t.children[i], t.children[i + 1])
    && t.children[i].Internal? && |t.children[i + 1].children| == 1
  }

  /** If the sibling is lone, the key that happens to be in the slot parts the two nodes. */
  ghost predicate SlotParts(t: Tree, i: nat) {
    LoneSibling(t, i) ==>
      KeysPart(t.children[i], t.children[i].keys[|t.children[i].children| - 1], t.children[i + 1])
  }

  ghost predicate KeysPart(a: Tree, s: Key, b: Tree) {
    (forall k :: k in Keys(a) ==> k < s) && (forall k :: k in Keys(b) ==> s <= k)
  }

  lemma MergeHalves(t: Tree, h: nat, lo: nat, hi: nat, i: nat)
    requires Valid(t, h, lo, hi) && Dense(t) && t.Internal? && |t.keys| == SLOTS && i + 1 < |t.children| <= INTERNAL_MAX
    requires Mergeable(t.children[i], t.children[i + 1]) && SlotParts(t, i) && h > 0
    ensures var a, b := t.children[i], t.children[i + 1];
      var s, low, high := JoinKey(a, t.keys[i], b), Low(t, i, lo), High(t, i + 1, hi);
      low <= s <= high && Valid(a, h - 1, low, s) && Valid(b, h - 1, s, high)
  {
    hide Valid;
    KeySlots(t, h, lo, hi);
    ChildValid(t, h, lo, hi, i);
    ChildValid(t, h, lo, hi, i + 1);
    ReplaceSeparators(t, h, lo, hi);
    var a, b := t.children[i], t.children[i + 1];
    var s, low, high := JoinKey(a, t.keys[i], b), Low(t, i, lo), High(t, i + 1, hi);
    if LoneSibling(t, i) {
      ChildShaped(t, h, lo, hi, i);
      ChildShaped(t, h, lo, hi, i + 1);
      forall k | k in Keys(a) ensures low <= k < s { KeysInRange(a, h - 1, low, High(t, i, hi), k); }
      forall k | k in Keys(b) ensures s <= k < high { KeysInRange(b, h - 1, Low(t, i + 1, lo), high, k); }
      Tighten(a, h - 1, low, High(t, i, hi), low, s);
      Tighten(b, h - 1, Low(t, i + 1, lo), high, s, high);
      var ka := DenseHasKey(a, h - 1);
      var kb := DenseHasKey(b, h - 1);
    }
  }

  lemma ChildShaped(t: Tree, h: nat, lo: nat, hi: nat, i: nat)
    requires Valid(t, h, lo, hi) && t.Internal? && i < |t.children|
    ensures h > 0 && Shaped(t.children[i], h - 1)
  {
  }

  lemma MergeRightValid(t: Tree, h: nat, lo: nat, hi: nat, i: nat)
    requires Valid(t, h, lo, hi) && Dense(t) && t.Internal? && |t.keys| == SLOTS && |t.children| <= INTERNAL_MAX && SlotParts(t, i)
    ensures Valid(MergeRight(t, i), h, lo, hi) && MergeRight(t, i).Internal?
  {
    hide Valid;
    if i + 1 < |t.children| && Mergeable(t.children[i], t.children[i + 1]) {
      KeySlots(t, h, lo, hi);
      MergeHalves(t, h, lo, hi, i);
      var a, b := t.children[i], t.children[i + 1];
      JoinFind(a, t.keys[i], b, h - 1, Low(t, i, lo), High(t, i + 1, hi), 0, 0);
      JoinedValid(t, h, lo, hi, i, Join(a, t.keys[i], b));
    }
  }

  lemma MergeRightFind(t: Tree, h: nat, lo: nat, hi: nat, i: nat, k: Key, v: Value)
    requires Valid(t, h, lo, hi) && Dense(t) && t.Internal? && |t.keys| == SLOTS && |t.children| <= INTERNAL_MAX && SlotParts(t, i)
    ensures Find(MergeRight(t, i), k) == Some(v) <==> Find(t, k) == Some(v)
  {
    hide Valid, Find, Join, RemoveShift;
    if i + 1 < |t.children| && Mergeable(t.children[i], t.children[i + 1]) {
      KeySlots(t, h, lo, hi);
      MergeHalves(t, h, lo, hi, i);
      MergeRightValid(t, h, lo, hi, i);
      var a, b := t.children[i], t.children[i + 1];
      JoinFind(a, t.keys[i], b, h - 1, Low(t, i, lo), High(t, i + 1, hi), k, v);
      var placed := t.(children := t.children[i := Join(a, t.keys[i], b)]);
      MergedChildren(t, i, Join(a, t.keys[i], b), RemoveShift(placed, i + 1), k, v);
      InternalFind(t, h, lo, hi, k, v);
      InternalFind(MergeRight(t, i), h, lo, hi, k, v);
    }
  }

  ghost predicate SomeChildFinds(t: Tree, k: Key, v: Value) {
    t.Internal? && exists j :: 0 <= j < |t.children| && Find(t.children[j], k) == Some(v)
  }

  lemma MergedChildren(t: Tree, i: nat, joined: Tree, s: Tree, k: Key, v: Value)
    requires t.Internal? && |t.keys| == SLOTS && i + 1 < |t.children| <= INTERNAL_MAX
    requires s == RemoveShift(t.(children := t.children[i := joined]), i + 1)
    requires Find(joined, k) == Some(v) <==> Find(t.children[i], k) == Some(v) || Find(t.children[i + 1], k) == Some(v)
    ensures SomeChildFinds(s, k, v) <==> SomeChildFinds(t, k, v)
  {
    hide Find, RemoveShift;
    ShiftSlots(t.(children := t.children[i := joined]), i + 1, s, i);
    if j: nat :| j < |t.children| && Find(t.children[j], k) == Some(v) {
      var at := if j <= i then j else j - 1;
      assert Find(s.children[at], k) == Some(v);
    }
    if j: nat :| j < |s.children| && Find(s.children[j], k) == Some(v) {
      var at := if j < i then j else if j > i then j + 1 else if Find(t.children[i], k) == Some(v) then i else i + 1;
      assert Find(t.children[at], k) == Some(v);
    }
  }

  // ---- what removal from a subtree promises

  ghost predicate SameFindsBut(t: Tree, t': Tree, key: Key) {
    forall k: Key, v: Value {:trigger Find(t', k), Some(v)} {:trigger Find(t, k), Some(v)} ::
      Find(t', k) == Some(v) <==> k != key && Find(t, k) == Some(v)
  }

  ghost predicate Removed(t: Tree, r: RemoveResult, key: Key, h: nat, lo: nat, hi: nat) {
    && r.removed == Find(t, key) && SameFindsBut(t, r.tree, key) && (t.Leaf? <==> r.tree.Leaf?)
    && (!Empty(r.tree) ==> Valid(r.tree, h, lo, hi) && Dense(r.tree))
    && (!Empty(r.tree) && r.minChanged ==> lo <= r.newMin <= hi && Valid(r.tree, h, r.newMin, hi))
  }

  /** `r` is leaf `t` without its entry at `pos`. */
  ghost predicate WithoutEntry(t: Tree, r: Tree, pos: nat) {
    && t.Leaf? && r.Leaf? && |t.keys| == |r.keys| == SLOTS && pos < |t.vals| <= LEAF_MAX && |r.vals| == |t.vals| - 1
    && (forall j: nat :: j < pos ==> r.keys[j] == t.keys[j] && r.vals[j] == t.vals[j])
    && (forall j: nat :: pos < j < |t.vals| ==> r.keys[j - 1] == t.keys[j] && r.vals[j - 1] == t.vals[j])
  }

  lemma ShiftLeafSlots(t: Tree, pos: nat)
    requires t.Leaf? && |t.keys| == SLOTS && pos < |t.vals| <= LEAF_MAX
    ensures WithoutEntry(t, RemoveShiftLeaf(t, pos), pos)
  {
  }

  lemma WithoutEntryValid(t: Tree, r: Tree, pos: nat, lo: nat, hi: nat)
    requires WithoutEntry(t, r, pos) && Valid(t, 0, lo, hi)
    ensures Valid(r, 0, lo, hi)
    ensures pos == 0 && r.vals != [] ==> lo <= r.keys[0] <= hi && Valid(r, 0, r.keys[0], hi)
  {
    forall j: nat | j < |r.vals| ensures r.keys[j] == t.keys[if j < pos then j else j + 1] {
      if j >= pos { assert r.keys[j + 1 - 1] == t.keys[j + 1]; }
    }
  }

  lemma WithoutEntryFind(t: Tree, r: Tree, pos: nat, k: Key, v: Value)
    requires WithoutEntry(t, r, pos) && Rising(t.keys, |t.vals|) && Rising(r.keys, |r.vals|)
    ensures Find(r, k) == Some(v) <==> k != t.keys[pos] && Find(t, k) == Some(v)
  {
    hide Find;
    if Find(r, k).Some? {
      var j := FoundInLeaf(r, k);
      if j >= pos { assert r.keys[j + 1 - 1] == t.keys[j + 1]; }
      LeafFind(t, k, if j < pos then j else j + 1);
    }
    if k != t.keys[pos] && Find(t, k).Some? {
      var j := FoundInLeaf(t, k);
      LeafFind(r, k, if j < pos then j else j - 1);
    }
  }

  lemma RemoveLeafCorrect(t: Tree, key: Key, lo: nat, hi: nat)
    requires Valid(t, 0, lo, hi) && t.Leaf? && |t.keys| == SLOTS && |t.vals| <= LEAF_MAX && Dense(t)
    ensures Removed(t, RemoveFromLeaf(t, key), key, 0, lo, hi)
  {
    KeySlots(t, 0, lo, hi);
    var pos := Position(t.keys, |t.vals|, key, 0);
    if pos < |t.vals| && t.keys[pos] == key {
      RemoveFoundEntry(t, key, pos, lo, hi);
    }
  }

  lemma RemoveFoundEntry(t: Tree, key: Key, pos: nat, lo: nat, hi: nat)
    requires Valid(t, 0, lo, hi) && t.Leaf? && |t.keys| == SLOTS && pos < |t.vals| <= LEAF_MAX && t.keys[pos] == key
    ensures var r := RemoveShiftLeaf(t, pos);
      Removed(t, RemoveResult(r, Some(t.vals[pos]), pos == 0, r.keys[0]), key, 0, lo, hi)
  {
    hide RemoveShiftLeaf, Find;
    var r := RemoveShiftLeaf(t, pos);
    KeySlots(t, 0, lo, hi);
    ShiftLeafSlots(t, pos);
    WithoutEntryValid(t, r, pos, lo, hi);
    KeySlots(r, 0, lo, hi);
    LeafFind(t, key, pos);
    WithoutEntryFinds(t, r, pos, key);
  }

  lemma WithoutEntryFinds(t: Tree, r: Tree, pos: nat, key: Key)
    requires WithoutEntry(t, r, pos) && Rising(t.keys, |t.vals|) && Rising(r.keys, |r.vals|) && t.keys[pos] == key
    ensures SameFindsBut(t, r, key)
  {
    hide Find;
    forall k: Key, v: Value ensures Find(r, k) == Some(v) <==> k != key && Find(t, k) == Some(v) {
      WithoutEntryFind(t, r, pos, k, v);
    }
  }

  /** The parent with its child replaced; the lifted separator still parts the two. */
  lemma PlacedValid(t: Tree, h: nat, lo: nat, hi: nat, i: nat, r: RemoveResult)
    requires Valid(t, h, lo, hi) && h > 0 && t.Internal? && |t.keys| == SLOTS && i < |t.children| <= INTERNAL_MAX
    requires Valid(r.tree, h - 1, Low(t, i, lo), High(t, i, hi))
    requires r.minChanged ==> Low(t, i, lo) <= r.newMin <= High(t, i, hi) && Valid(r.tree, h - 1, r.newMin, High(t, i, hi))
    ensures Valid(Placed(t, i, r), h, lo, hi)
    ensures i == 0 && r.minChanged ==> lo <= r.newMin <= hi && Valid(Placed(t, i, r), h, r.newMin, hi)
  {
    forall j: nat | j < |t.children| ensures Valid(t.children[j], h - 1, Low(t, j, lo), High(t, j, hi)) {
      ChildValid(t, h, lo, hi, j);
    }
    ReplaceSeparators(t, h, lo, hi);
    PlacedFits(t, h, lo, hi, i, r);
  }

  lemma PlacedFits(t: Tree, h: nat, lo: nat, hi: nat, i: nat, r: RemoveResult)
    requires h > 0 && t.Internal? && |t.keys| == SLOTS && i < |t.children| <= INTERNAL_MAX
    requires NotFalling(t.keys, |t.children| - 1) && forall j :: 0 <= j < |t.children| - 1 ==> lo <= t.keys[j] <= hi
    requires forall j: nat :: j < |t.children| ==> Valid(t.children[j], h - 1, Low(t, j, lo), High(t, j, hi))
    requires Valid(r.tree, h - 1, Low(t, i, lo), High(t, i, hi))
    requires r.minChanged ==> Low(t, i, lo) <= r.newMin <= High(t, i, hi) && Valid(r.tree, h - 1, r.newMin, High(t, i, hi))
    ensures Valid(Placed(t, i, r), h, lo, hi)
    ensures i == 0 && r.minChanged ==> lo <= r.newMin <= hi && Valid(Placed(t, i, r), h, r.newMin, hi)
  {
    hide Valid;
    var p := Placed(t, i, r);
    forall j: nat | j < |p.children| ensures Valid(p.children[j], h - 1, Low(p, j, lo), High(p, j, hi)) {
      if i > 0 && r.minChanged && j == i - 1 {
        Widen(t.children[j], h - 1, Low(t, j, lo), High(t, j, hi), Low(p, j, lo), High(p, j, hi));
      }
    }
    InternalValid(p, h, lo, hi);
    if i == 0 && r.minChanged {
      assert forall j: nat :: 0 < j < |p.children| ==> Low(p, j, r.newMin) == Low(t, j, lo) && High(p, j, hi) == High(t, j, hi);
      InternalValid(p, h, r.newMin, hi);
    }
  }

  /** Every key is found by the child it was found by before. */
  lemma PlacedChildren(t: Tree, h: nat, lo: nat, hi: nat, i: nat, r: RemoveResult, key: Key, k: Key, v: Value)
    requires Valid(t, h, lo, hi) && t.Internal? && |t.keys| == SLOTS && i < |t.children| <= INTERNAL_MAX && i == RouteOf(t, key)
    requires SameFindsBut(t.children[i], r.tree, key)
    ensures SomeChildFinds(Placed(t, i, r), k, v) <==> k != key && SomeChildFinds(t, k, v)
  {
    hide Valid, Find;
    var p := Placed(t, i, r);
    if j: nat :| j < |t.children| && Find(t.children[j], k) == Some(v) {
      OnlyRouted(t, h, lo, hi, k, j);
      if k != key { assert Find(p.children[j], k) == Some(v); }
    }
    if j: nat :| j < |p.children| && Find(p.children[j], k) == Some(v) {
      if j != i && k == key { OnlyRouted(t, h, lo, hi, k, j); }
      assert Find(t.children[j], k) == Some(v);
    }
  }

  lemma DenseChildren(t: Tree, i: nat, r: RemoveResult)
    requires Dense(t) && t.Internal? && |t.keys| == SLOTS && i < |t.children| <= INTERNAL_MAX
    requires !Empty(r.tree) ==> Dense(r.tree)
    ensures !Empty(Kept(t, i, r)) ==> Dense(Kept(t, i, r))
  {
    var p := Placed(t, i, r);
    if Empty(r.tree) { ShiftSlots(p, i, RemoveShift(p, i), if i == 0 then 0 else i - 1); }
  }

  /** The node before the merge is valid, and an emptied child leaves no trace in it. */
  lemma KeptValid(t: Tree, h: nat, lo: nat, hi: nat, i: nat, r: RemoveResult)
    requires Valid(t, h, lo, hi) && h > 0 && t.Internal? && |t.keys| == SLOTS && i < |t.children| <= INTERNAL_MAX
    requires !Empty(r.tree) ==> Valid(r.tree, h - 1, Low(t, i, lo), High(t, i, hi))
    requires !Empty(r.tree) && r.minChanged ==>
               Low(t, i, lo) <= r.newMin <= High(t, i, hi) && Valid(r.tree, h - 1, r.newMin, High(t, i, hi))
    ensures !Empty(Kept(t, i, r)) ==> Valid(Kept(t, i, r), h, lo, hi)
    ensures !Empty(Kept(t, i, r)) && i == 0 && (r.minChanged || Empty(r.tree)) ==>
              var m := if Empty(r.tree) then t.keys[0] else r.newMin;
              lo <= m <= hi && Valid(Kept(t, i, r), h, m, hi)
  {
    hide Valid, RemoveShift, Placed;
    if !Empty(r.tree) {
      PlacedValid(t, h, lo, hi, i, r);
    } else if |t.children| > 1 {
      ShiftForgets(t, i, r);
      var before, after := RemoveShift(t, i), RemoveShift(Placed(t, i, r), i);
      RemoveShiftValid(t, h, lo, hi, i);
      UsefulValid(before, after, h, lo, hi);
      if i == 0 {
        DropFirstValid(t, h, lo, hi);
        UsefulValid(before, after, h, t.keys[0], hi);
      }
    } else {
      ShiftForgets(t, i, r);
      ShiftSlots(t, i, RemoveShift(t, i), if i == 0 then 0 else i - 1);
    }
  }

  /** The lifted separator of an emptied child goes with it; at most the last, unused slot remembers it. */
  lemma ShiftForgets(t: Tree, i: nat, r: RemoveResult)
    requires t.Internal? && |t.keys| == SLOTS && i < |t.children| <= INTERNAL_MAX
    ensures |Placed(t, i, r).keys| == SLOTS && |Placed(t, i, r).children| == |t.children| && Placed(t, i, r).Internal?
    ensures UsefulSlots(RemoveShift(t, i), RemoveShift(Placed(t, i, r), i))
  {
    var p := Placed(t, i, r);
    var start := if i == 0 then 0 else i - 1;
    assert p.keys[..start] == t.keys[..start] && p.keys[start + 1..] == t.keys[start + 1..];
    assert p.children[..i] == t.children[..i] && p.children[i + 1..] == t.children[i + 1..];
  }

  /** Same children and same separators; slots past them may differ. */
  ghost predicate UsefulSlots(t: Tree, t': Tree) {
    && t.Internal? && t'.Internal? && |t.keys| == |t'.keys| == SLOTS && t.children == t'.children && |t.children| <= SLOTS
    && forall j: nat :: j < |t.children| - 1 ==> t.keys[j] == t'.keys[j]
  }

  lemma UsefulValid(t: Tree, t': Tree, h: nat, lo: nat, hi: nat)
    requires UsefulSlots(t, t') && Valid(t, h, lo, hi)
    ensures Valid(t', h, lo, hi)
  {
    KeySlots(t, h, lo, hi);
    ReplaceSeparators(t, h, lo, hi);
    forall j: nat | j < |t'.children| ensures Valid(t'.children[j], h - 1, Low(t', j, lo), High(t', j, hi)) {
      ChildValid(t, h, lo, hi, j);
    }
    InternalValid(t', h, lo, hi);
  }

  lemma KeptChildren(t: Tree, h: nat, lo: nat, hi: nat, i: nat, r: RemoveResult, key: Key, k: Key, v: Value)
    requires Valid(t, h, lo, hi) && t.Internal? && |t.keys| == SLOTS && i < |t.children| <= INTERNAL_MAX && i == RouteOf(t, key)
    requires SameFindsBut(t.children[i], r.tree, key)
    ensures SomeChildFinds(Kept(t, i, r), k, v) <==> k != key && SomeChildFinds(t, k, v)
  {
    hide Valid, Placed, RemoveShift;
    PlacedChildren(t, h, lo, hi, i, r, key, k, v);
    ShiftForgets(t, i, r);
    if Empty(r.tree) { EmptyForgotten(t, i, r, k, v); }
  }

  lemma EmptyForgotten(t: Tree, i: nat, r: RemoveResult, k: Key, v: Value)
    requires t.Internal? && |t.keys| == SLOTS && i < |t.children| <= INTERNAL_MAX && Empty(r.tree)
    ensures |Placed(t, i, r).keys| == SLOTS && |Placed(t, i, r).children| == |t.children| && Placed(t, i, r).Internal?
    ensures SomeChildFinds(RemoveShift(Placed(t, i, r), i), k, v) <==> SomeChildFinds(Placed(t, i, r), k, v)
  {
    var p := Placed(t, i, r);
    assert Find(p.children[i], k) == None;
    hide Find, RemoveShift, Placed;
    var s := RemoveShift(p, i);
    ShiftSlots(p, i, s, if i == 0 then 0 else i - 1);
    if j: nat :| j < |p.children| && Find(p.children[j], k) == Some(v) {
      assert Find(s.children[if j < i then j else j - 1], k) == Some(v);
    }
    if j: nat :| j < |s.children| && Find(s.children[j], k) == Some(v) {
      assert Find(p.children[if j < i then j else j + 1], k) == Some(v);
    }
  }

  lemma {:induction false} JoinDense(a: Tree, sep: Key, b: Tree)
    requires Mergeable(a, b) && Dense(a) && Dense(b)
    ensures Dense(Join(a, sep, b))
  {
    if a.Internal? { JoinInternalSlots(a, sep, b, JoinInternal(a, sep, b), |a.children|); }
  }

  lemma MergeRightDense(t: Tree, i: nat)
    requires t.Internal? && |t.keys| == SLOTS && |t.children| <= INTERNAL_MAX && Dense(t)
    ensures Dense(MergeRight(t, i))
  {
    hide Join, RemoveShift;
    if i + 1 < |t.children| && Mergeable(t.children[i], t.children[i + 1]) {
      var joined := Join(t.children[i], t.keys[i], t.children[i + 1]);
      JoinDense(t.children[i], t.keys[i], t.children[i + 1]);
      var placed := t.(children := t.children[i := joined]);
      ShiftSlots(placed, i + 1, RemoveShift(placed, i + 1), i);
    }
  }

  lemma RepairFinds(t: Tree, h: nat, lo: nat, hi: nat, i: nat, r: RemoveResult, key: Key)
    requires Valid(t, h, lo, hi) && Dense(t) && t.Internal? && |t.keys| == SLOTS && i < |t.children| <= INTERNAL_MAX
    requires i == RouteOf(t, key) && SameFindsBut(t.children[i], r.tree, key)
    requires !Empty(r.tree) ==> Dense(r.tree)
    requires !Empty(Kept(t, i, r)) ==> Valid(Kept(t, i, r), h, lo, hi)
    requires SlotParts(Kept(t, i, r), i)
    ensures SameFindsBut(t, MergeRight(Kept(t, i, r), i), key)
  {
    hide Valid, Find, Kept, MergeRight, SlotParts, SameFindsBut;
    var kept := Kept(t, i, r);
    DenseChildren(t, i, r);
    forall k: Key, v: Value {:trigger Find(MergeRight(kept, i), k), Some(v)} {:trigger Find(t, k), Some(v)}
      ensures Find(MergeRight(kept, i), k) == Some(v) <==> k != key && Find(t, k) == Some(v)
    {
      InternalFind(t, h, lo, hi, k, v);
      KeptChildren(t, h, lo, hi, i, r, key, k, v);
      if Empty(kept) {
        EmptyMerge(kept, i, k);
      } else {
        InternalFind(kept, h, lo, hi, k, v);
        MergeRightFind(kept, h, lo, hi, i, k, v);
      }
    }
    assert SameFindsBut(t, MergeRight(kept, i), key) by { FoldFinds(t, MergeRight(kept, i), key); }
  }

  lemma FoldFinds(t: Tree, t': Tree, key: Key)
    requires forall k: Key, v: Value {:trigger Find(t', k), Some(v)} {:trigger Find(t, k), Some(v)} ::
      Find(t', k) == Some(v) <==> k != key && Find(t, k) == Some(v)
    ensures SameFindsBut(t, t', key)
  {
  }

  lemma EmptyMerge(t: Tree, i: nat, k: Key)
    requires Empty(t) && t.Internal? && |t.keys| == SLOTS
    ensures MergeRight(t, i) == t && Find(t, k) == None
  {
  }

  /** On the path of `key`, every merge with a lone sibling finds a parting key in the slot. */
  ghost predicate MergesPart(t: Tree, key: Key, h: nat)
    requires Shaped(t, h)
    decreases h
  {
    t.Internal? ==>
      var i := RouteOf(t, key);
      && MergesPart(t.children[i], key, h - 1)
      && SlotParts(Kept(t, i, RemoveNode(t.children[i], key, h - 1)), i)
  }

  lemma {:induction false} RemoveNodeCorrect(t: Tree, key: Key, h: nat, lo: nat, hi: nat)
    requires Valid(t, h, lo, hi) && Dense(t) && lo <= key < hi && MergesPart(t, key, h)
    ensures Removed(t, RemoveNode(t, key, h), key, h, lo, hi)
    decreases h
  {
    hide SlotParts, Kept, Repair, Removed;
    KeySlots(t, h, lo, hi);
    if t.Leaf? {
      RemoveLeafCorrect(t, key, lo, hi);
    } else {
      var i := RouteOf(t, key);
      ChildRange(t, h, lo, hi, key);
      RemoveNodeCorrect(t.children[i], key, h - 1, Low(t, i, lo), High(t, i, hi));
      RepairCorrect(t, h, lo, hi, i, RemoveNode(t.children[i], key, h - 1), key);
    }
  }

  lemma RepairCorrect(t: Tree, h: nat, lo: nat, hi: nat, i: nat, r: RemoveResult, key: Key)
    requires Valid(t, h, lo, hi) && h > 0 && Dense(t) && t.Internal? && |t.keys| == SLOTS && i < |t.children| <= INTERNAL_MAX
    requires i == RouteOf(t, key) && Removed(t.children[i], r, key, h - 1, Low(t, i, lo), High(t, i, hi))
    requires SlotParts(Kept(t, i, r), i)
    ensures Removed(t, Repair(t, i, r), key, h, lo, hi)
  {
    hide Valid, Find, Kept, SlotParts, SameFindsBut, MergeRight;
    var kept := Kept(t, i, r);
    FindRouted(t, key);
    KeptValid(t, h, lo, hi, i, r);
    DenseChildren(t, i, r);
    RepairFinds(t, h, lo, hi, i, r, key);
    if Empty(kept) {
      EmptyMerge(kept, i, key);
    } else {
      MergeRightValid(kept, h, lo, hi, i);
      MergeRightDense(kept, i);
      if i == 0 && (r.minChanged || Empty(r.tree)) {
        MergeRightValid(kept, h, if Empty(r.tree) then t.keys[0] else r.newMin, hi, i);
      }
    }
  }

  function Size(t: Tree): nat { if t.Leaf? then |t.vals| else |t.children| }

  function Room(t: Tree): nat { if t.Leaf? then LEAF_MAX else INTERNAL_MAX }

  /** Two neighbours become one node exactly when one node has room for both. */
  lemma MergeExact(t: Tree, h: nat, lo: nat, hi: nat, i: nat)
    requires Valid(t, h, lo, hi) && Dense(t) && t.Internal? && i + 1 < |t.children|
    ensures |t.keys| == SLOTS && |t.children| <= INTERNAL_MAX
    ensures var a, b, merged := t.children[i], t.children[i + 1], MergeRight(t, i);
            if Size(a) + Size(b) <= Room(a) then
              && merged.Internal? && |merged.children| == |t.children| - 1 && Size(merged.children[i]) == Size(a) + Size(b)
              && merged.children[..i] == t.children[..i] && merged.children[i + 1..] == t.children[i + 2..]
            else merged == t
  {
    hide Valid, Dense, Join, NotFalling, Rising;
    KeySlots(t, h, lo, hi);
    ChildSlots(t, h, lo, hi, i);
    ChildSlots(t, h, lo, hi, i + 1);
    var a, b := t.children[i], t.children[i + 1];
    if Mergeable(a, b) { JoinedSize(a, t.keys[i], b); }
  }

  lemma ChildSlots(t: Tree, h: nat, lo: nat, hi: nat, i: nat)
    requires Valid(t, h, lo, hi) && Dense(t) && t.Internal? && i < |t.children|
    ensures |t.children[i].keys| == SLOTS && Size(t.children[i]) > 0 && h > 0 && (t.children[i].Internal? <==> h > 1)
  {
    ChildValid(t, h, lo, hi, i);
    KeySlots(t.children[i], h - 1, Low(t, i, lo), High(t, i, hi));
    assert Dense(t.children[i]);
  }

  lemma JoinedSize(a: Tree, sep: Key, b: Tree)
    requires Mergeable(a, b)
    ensures Size(Join(a, sep, b)) == Size(a) + Size(b)
  {
  }

  // ---- what a merge with a lone sibling loses when the slot does not part the two

  /** Neither the search in `t` nor one in a child of `t` finds `k`. */
  ghost predicate Lost(t: Tree, k: Key) {
    t.Internal? && |t.keys| == SLOTS && |t.children| <= INTERNAL_MAX
    && forall j :: 0 <= j < |t.children| ==> Find(t.children[j], k) == None
  }

  lemma LostNotFound(t: Tree, k: Key)
    requires Lost(t, k)
    ensures Find(t, k) == None
  {
  }

  lemma NotFoundIsLost(t: Tree, h: nat, lo: nat, hi: nat, k: Key)
    requires Valid(t, h, lo, hi) && t.Internal? && Find(t, k) == None
    ensures Lost(t, k)
  {
    KeySlots(t, h, lo, hi);
    hide Valid, Find;
    forall j: nat | j < |t.children| ensures Find(t.children[j], k) == None {
      if Find(t.children[j], k).Some? { InternalFind(t, h, lo, hi, k, Find(t.children[j], k).value); }
    }
  }

  lemma JoinLost(a: Tree, sep: Key, b: Tree, k: Key)
    requires Mergeable(a, b) && Lost(a, k) && Lost(b, k)
    ensures Lost(JoinInternal(a, sep, b), k)
  {
    hide Find, JoinInternal;
    JoinInternalSlots(a, sep, b, JoinInternal(a, sep, b), |a.children|);
  }

  /** A key in the last child of `a` that is not below the slot's key is routed past it. */
  lemma LoseLeft(a: Tree, sep: Key, b: Tree, h: nat, lo: nat, hi: nat, k: Key)
    requires Mergeable(a, b) && a.Internal? && |b.children| == 1
    requires Valid(a, h, lo, sep) && Valid(b, h, sep, hi)
    requires k in Keys(a.children[|a.children| - 1]) && a.keys[|a.children| - 1] <= k
    ensures Find(JoinInternal(a, sep, b), k) == None
  {
    hide Find, Valid, Route, JoinInternal;
    var n, j := |a.children|, JoinInternal(a, sep, b);
    JoinInternalSlots(a, sep, b, j, n);
    KeySlots(a, h, lo, sep);
    ChildValid(a, h, lo, sep, n - 1);
    ChildValid(b, h, sep, hi, 0);
    KeysInRange(a.children[n - 1], h - 1, Low(a, n - 1, lo), High(a, n - 1, sep), k);
    RouteIs(j.keys, n + 1, k, n);
    FindRouted(j, k);
    if Find(b.children[0], k).Some? {
      FoundIsKey(b.children[0], k);
      KeysInRange(b.children[0], h - 1, Low(b, 0, sep), High(b, 0, hi), k);
    }
  }

  /** A key of `b` below the slot's key is routed to the last child of `a`. */
  lemma LoseRight(a: Tree, sep: Key, b: Tree, h: nat, lo: nat, hi: nat, k: Key)
    requires Mergeable(a, b) && a.Internal? && |b.children| == 1
    requires Valid(a, h, lo, sep) && Valid(b, h, sep, hi)
    requires k in Keys(b) && k < a.keys[|a.children| - 1]
    ensures Find(JoinInternal(a, sep, b), k) == None
  {
    hide Find, Valid, Route, JoinInternal, Keys;
    var n, j := |a.children|, JoinInternal(a, sep, b);
    JoinInternalSlots(a, sep, b, j, n);
    KeySlots(a, h, lo, sep);
    ReplaceSeparators(a, h, lo, sep);
    KeysInRange(b, h, sep, hi, k);
    RouteIs(j.keys, n + 1, k, n - 1);
    FindRouted(j, k);
    ChildValid(a, h, lo, sep, n - 1);
    if Find(a.children[n - 1], k).Some? {
      FoundIsKey(a.children[n - 1], k);
      KeysInRange(a.children[n - 1], h - 1, Low(a, n - 1, lo), High(a, n - 1, sep), k);
    }
  }

  /** When the slot does not part the two nodes, the joined node loses one of their keys. */
  lemma JoinLoses(a: Tree, sep: Key, b: Tree, h: nat, lo: nat, hi: nat) returns (k: Key)
    requires Mergeable(a, b) && a.Internal? && |b.children| == 1 && Dense(a) && Dense(b)
    requires Valid(a, h, lo, sep) && Valid(b, h, sep, hi)
    requires !KeysPart(a, a.keys[|a.children| - 1], b)
    ensures (k in Keys(a) || k in Keys(b)) && Find(JoinInternal(a, sep, b), k) == None
  {
    hide Find, Valid, JoinInternal;
    var n := |a.children|;
    if x :| x in Keys(a) && x >= a.keys[n - 1] {
      k := LastChildKey(a, h, lo, sep, x);
      LoseLeft(a, sep, b, h, lo, hi, k);
    } else {
      k :| k in Keys(b) && k < a.keys[n - 1];
      LoseRight(a, sep, b, h, lo, hi, k);
    }
  }

  /** The last child holds a key that is as large as any other. */
  lemma LastChildKey(a: Tree, h: nat, lo: nat, hi: nat, x: Key) returns (k: Key)
    requires Valid(a, h, lo, hi) && Dense(a) && a.Internal? && x in Keys(a)
    ensures k in Keys(a.children[|a.children| - 1]) && k in Keys(a) && k >= x
  {
    hide Valid;
    var n := |a.children|;
    KeySlots(a, h, lo, hi);
    var i :| 0 <= i < n && x in Keys(a.children[i]);
    if i == n - 1 { return x; }
    ChildValid(a, h, lo, hi, i);
    ChildValid(a, h, lo, hi, n - 1);
    ChildShaped(a, h, lo, hi, n - 1);
    k := DenseHasKey(a.children[n - 1], h - 1);
    KeysInRange(a.children[i], h - 1, Low(a, i, lo), High(a, i, hi), x);
    KeysInRange(a.children[n - 1], h - 1, Low(a, n - 1, lo), High(a, n - 1, hi), k);
    assert a.keys[i] <= a.keys[n - 2];
    assert k in Keys(a);
  }

  lemma MergeRightLoses(t: Tree, h: nat, lo: nat, hi: nat, i: nat) returns (k: Key)
    requires Valid(t, h, lo, hi) && Dense(t) && t.Internal? && |t.keys| == SLOTS && |t.children| <= INTERNAL_MAX
    requires !SlotParts(t, i)
    ensures Find(t, k).Some? && Lost(MergeRight(t, i), k)
  {
    hide Valid, Find, JoinInternal, RemoveShift;
    KeySlots(t, h, lo, hi);
    ChildValid(t, h, lo, hi, i);
    ChildValid(t, h, lo, hi, i + 1);
    var a, b := t.children[i], t.children[i + 1];
    k := JoinLoses(a, t.keys[i], b, h - 1, Low(t, i, lo), High(t, i + 1, hi));
    var c := if k in Keys(a) then i else i + 1;
    KeyIsFound(t.children[c], h - 1, Low(t, c, lo), High(t, c, hi), k);
    InternalFind(t, h, lo, hi, k, Find(t.children[c], k).value);
    OnlyTheTwo(t, h, lo, hi, c, k);
    var placed := t.(children := t.children[i := Join(a, t.keys[i], b)]);
    ShiftSlots(placed, i + 1, RemoveShift(placed, i + 1), i);
  }

  lemma OnlyTheTwo(t: Tree, h: nat, lo: nat, hi: nat, c: nat, k: Key)
    requires Valid(t, h, lo, hi) && t.Internal? && c < |t.children| && Find(t.children[c], k).Some?
    ensures forall j :: 0 <= j < |t.children| && j != c ==> Find(t.children[j], k) == None
  {
    KeySlots(t, h, lo, hi);
    hide Valid, Find;
    OnlyRouted(t, h, lo, hi, k, c);
    forall j | 0 <= j < |t.children| && j != c ensures Find(t.children[j], k) == None {
      if Find(t.children[j], k).Some? { OnlyRouted(t, h, lo, hi, k, j); }
    }
  }

  /** A key lost in the child stays lost in the parent, whatever the parent merges. */
  lemma RepairLoses(t: Tree, h: nat, lo: nat, hi: nat, i: nat, r: RemoveResult, k: Key)
    requires Valid(t, h, lo, hi) && h > 0 && t.Internal? && |t.keys| == SLOTS && i < |t.children| <= INTERNAL_MAX
    requires Find(t.children[i], k).Some? && Lost(r.tree, k) && !Empty(r.tree)
    ensures Lost(Repair(t, i, r).tree, k)
  {
    hide Valid, Find, JoinInternal, RemoveShift;
    OnlyTheTwo(t, h, lo, hi, i, k);
    LostNotFound(r.tree, k);
    var kept := Kept(t, i, r);
    if i + 1 < |kept.children| && Mergeable(kept.children[i], kept.children[i + 1]) {
      var b := t.children[i + 1];
      ChildValid(t, h, lo, hi, i + 1);
      NotFoundIsLost(b, h - 1, Low(t, i + 1, lo), High(t, i + 1, hi), k);
      JoinLost(r.tree, kept.keys[i], b, k);
      LostNotFound(JoinInternal(r.tree, kept.keys[i], b), k);
      var placed := kept.(children := kept.children[i := Join(r.tree, kept.keys[i], b)]);
      ShiftSlots(placed, i + 1, RemoveShift(placed, i + 1), i);
    }
  }

  lemma LostFillsNode(t: Tree, k: Key, r: RemoveResult, i: nat)
    requires t.Internal? && |t.keys| == SLOTS && i < |t.children| <= INTERNAL_MAX && !Empty(r.tree)
    ensures !Empty(Repair(t, i, r).tree)
  {
    var kept := Kept(t, i, r);
    hide Join;
    if i + 1 < |kept.children| && Mergeable(kept.children[i], kept.children[i + 1]) {
      var placed := kept.(children := kept.children[i := Join(kept.children[i], kept.keys[i], kept.children[i + 1])]);
      ShiftSlots(placed, i + 1, RemoveShift(placed, i + 1), i);
    }
  }

  /** If some merge on the path is not parted, a key other than the removed one can no longer be found. */
  lemma {:induction false} RemoveNodeLoses(t: Tree, key: Key, h: nat, lo: nat, hi: nat) returns (k: Key)
    requires Valid(t, h, lo, hi) && Dense(t) && lo <= key < hi && !MergesPart(t, key, h)
    ensures k != key && Find(t, k).Some?
    ensures Lost(RemoveNode(t, key, h).tree, k) && !Empty(RemoveNode(t, key, h).tree)
    decreases h
  {
    hide Valid, Find, Lost, SlotParts, Removed, Repair;
    KeySlots(t, h, lo, hi);
    var i := RouteOf(t, key);
    ChildRange(t, h, lo, hi, key);
    ChildShaped(t, h, lo, hi, i);
    var child, r := t.children[i], RemoveNode(t.children[i], key, h - 1);
    if !MergesPart(child, key, h - 1) {
      k := RemoveNodeLoses(child, key, h - 1, Low(t, i, lo), High(t, i, hi));
      RepairLoses(t, h, lo, hi, i, r, k);
      LostFillsNode(t, k, r, i);
      InternalFind(t, h, lo, hi, k, Find(child, k).value);
    } else {
      RemoveNodeCorrect(child, key, h - 1, Low(t, i, lo), High(t, i, hi));
      k := MergeLosesHere(t, h, lo, hi, i, r, key);
    }
  }

  lemma MergeLosesHere(t: Tree, h: nat, lo: nat, hi: nat, i: nat, r: RemoveResult, key: Key) returns (k: Key)
    requires Valid(t, h, lo, hi) && h > 0 && Dense(t) && t.Internal? && |t.keys| == SLOTS && i < |t.children| <= INTERNAL_MAX
    requires i == RouteOf(t, key) && Removed(t.children[i], r, key, h - 1, Low(t, i, lo), High(t, i, hi))
    requires !SlotParts(Kept(t, i, r), i)
    ensures k != key && Find(t, k).Some? && Lost(Repair(t, i, r).tree, k) && !Empty(Repair(t, i, r).tree)
  {
    hide Valid, Find, Lost, SameFindsBut, MergeRight, Kept;
    var kept := Kept(t, i, r);
    KeptValid(t, h, lo, hi, i, r);
    DenseChildren(t, i, r);
    LoneIsNotEmpty(kept, i);
    k := MergeRightLoses(kept, h, lo, hi, i);
    MergeRightDense(kept, i);
    var v := Find(kept, k).value;
    InternalFind(kept, h, lo, hi, k, v);
    KeptChildren(t, h, lo, hi, i, r, key, k, v);
    InternalFind(t, h, lo, hi, k, v);
  }

  lemma LoneIsNotEmpty(t: Tree, i: nat)
    requires !SlotParts(t, i)
    ensures !Empty(t)
  {
  }

  // ---- the whole tree

  /** Removing from a tree that is not empty; the caller has to see to that. */
  function Remove(root: Tree, key: Key, ghost h: nat): RemoveResult
    requires ValidRoot(root, h) && root.children != []
  {
    var r := RemoveNode(root, key, h);
    r.(tree := Collapsed(r.tree))
  }

  lemma CollapsedFind(t: Tree, k: Key)
    requires t.Internal? && |t.keys| == SLOTS
    ensures Find(Collapsed(t), k) == Find(t, k)
  {
  }

  ghost function RemainingHeight(t: Tree, h: nat): nat {
    if Empty(t) then 1 else if Collapsed(t) == t then h else if h > 0 then h - 1 else 0
  }

  lemma RemainsInternal(root: Tree, key: Key, h: nat)
    requires ValidRoot(root, h) && root.children != []
    ensures Shaped(root, h) && h > 0 && RemoveNode(root, key, h).tree.Internal?
  {
    RootShaped(root, h);
  }

  /** The root gives way exactly when it has a single child left and that is an inner node; the tree is then one level lower. */
  lemma CollapseExact(t: Tree, h: nat)
    requires t.Internal? && h > 0
    ensures |t.children| == 1 && t.children[0].Internal? ==> Collapsed(t) == t.children[0] && RemainingHeight(t, h) == h - 1
    ensures |t.children| == 1 && t.children[0].Leaf? ==> Collapsed(t) == t && RemainingHeight(t, h) == h
    ensures |t.children| != 1 ==> Collapsed(t) == t && RemainingHeight(t, h) == if t.children == [] then 1 else h
  {
    if |t.children| == 1 && t.children[0].Internal? { assert t.children[0] < t; }
  }

  lemma CollapsedValid(t: Tree, h: nat)
    requires h > 0 && t.Internal? && |t.keys| == SLOTS && (Empty(t) || (Valid(t, h, 0, TOP) && Dense(t)))
    ensures ValidRoot(Collapsed(t), RemainingHeight(t, h)) && (Empty(Collapsed(t)) || Dense(Collapsed(t)))
  {
    if Collapsed(t) != t { ChildValid(t, h, 0, TOP, 0); KeySlots(t.children[0], h - 1, 0, TOP); }
  }

  /** Without bad merges, removal refines the removal from a map and leaves a valid tree. */
  lemma RemoveRefines(root: Tree, key: Key, h: nat)
    requires ValidRoot(root, h) && root.children != [] && Dense(root) && key < TOP && MergesPart(root, key, h)
    ensures var r := Remove(root, key, h);
      && r.removed == (if key in Contents(root) then Some(Contents(root)[key]) else None)
      && Contents(r.tree) == Contents(root) - {key}
      && ValidRoot(r.tree, RemainingHeight(RemoveNode(root, key, h).tree, h)) && (Empty(r.tree) || Dense(r.tree))
  {
    hide Valid, Find, Contents, RemoveNode, Collapsed, Dense;
    RootShaped(root, h);
    RemoveNodeCorrect(root, key, h, 0, TOP);
    var r := RemoveNode(root, key, h);
    NodeSlots(root, key, h);
    CollapsedValid(r.tree, h);
    ContentsFind(root, h, key);
    ContentsRemoved(root, h, Collapsed(r.tree), RemainingHeight(r.tree, h), r.tree, key);
  }

  lemma RootShaped(t: Tree, h: nat)
    requires ValidRoot(t, h) && t.children != []
    ensures t.Internal? && h > 0 && Shaped(t, h) && Valid(t, h, 0, TOP)
  {
  }

  lemma NodeSlots(t: Tree, key: Key, h: nat)
    requires Shaped(t, h) && t.Internal?
    ensures RemoveNode(t, key, h).tree.Internal? && |RemoveNode(t, key, h).tree.keys| == SLOTS
  {
    hide RemoveNode, Join;
    MergeSlots(Kept(t, RouteOf(t, key), RemoveNode(t.children[RouteOf(t, key)], key, h - 1)), RouteOf(t, key));
    RemoveNodeStep(t, key, h);
  }

  lemma RemoveNodeStep(t: Tree, key: Key, h: nat)
    requires Shaped(t, h) && t.Internal?
    ensures RemoveNode(t, key, h) == Repair(t, RouteOf(t, key), RemoveNode(t.children[RouteOf(t, key)], key, h - 1))
  {
  }

  lemma MergeSlots(t: Tree, i: nat)
    requires t.Internal? && |t.keys| == SLOTS && |t.children| <= INTERNAL_MAX
    ensures MergeRight(t, i).Internal? && |MergeRight(t, i).keys| == SLOTS
  {
    hide Join;
  }

  lemma ContentsRemoved(t: Tree, h: nat, t': Tree, h': nat, r: Tree, key: Key)
    requires ValidRoot(t, h) && ValidRoot(t', h') && r.Internal? && |r.keys| == SLOTS && t' == Collapsed(r)
    requires SameFindsBut(t, r, key)
    ensures Contents(t') == Contents(t) - {key}
  {
    hide ValidRoot, Find, Contents, Collapsed;
    forall k: nat ensures Find(t', k) == if k != key then Find(t, k) else None {
      CollapsedFind(r, k);
      if Find(t, k).Some? { assert Find(t, k) == Some(Find(t, k).value); }
      if Find(r, k).Some? { assert Find(r, k) == Some(Find(r, k).value); }
    }
    forall k: nat ensures Find(t', k) == if k in Contents(t') then Some(Contents(t')[k]) else None { ContentsFind(t', h', k); }
    forall k: nat ensures Find(t, k) == if k in Contents(t) then Some(Contents(t)[k]) else None { ContentsFind(t, h, k); }
    var after := Contents(t) - {key};
    forall k: nat ensures k in Contents(t') <==> k in after { }
    forall k: nat | k in after ensures Contents(t')[k] == after[k] { }
  }

  /**
   * Removal deletes exactly the key from the map if and only if, at every merge on the path whose right sibling has a
   * single child, the key left in the slot happens to part the two nodes.
   */
  lemma RemoveExact(root: Tree, key: Key, h: nat)
    requires ValidRoot(root, h) && root.children != [] && Dense(root) && key < TOP
    ensures Contents(Remove(root, key, h).tree) == Contents(root) - {key} <==> MergesPart(root, key, h)
  {
    hide Valid, Find, RemoveNode, Collapsed, Dense, MergesPart;
    RootShaped(root, h);
    if MergesPart(root, key, h) {
      RemoveRefines(root, key, h);
    } else {
      var k := RemoveNodeLoses(root, key, h, 0, TOP);
      var r := RemoveNode(root, key, h);
      LostNotFound(r.tree, k);
      CollapsedFind(r.tree, k);
      ContentsFind(root, h, k);
      assert k in Contents(root) - {key} && k !in Contents(Collapsed(r.tree));
    }
  }

  /** On the path of `key`, no merge has a right sibling with a single child. */
  ghost predicate WideSiblings(t: Tree, key: Key, h: nat)
    requires Shaped(t, h)
    decreases h
  {
    t.Internal? ==>
      var i := RouteOf(t, key);
      && WideSiblings(t.children[i], key, h - 1)
      && !LoneSibling(Kept(t, i, RemoveNode(t.children[i], key, h - 1)), i)
  }

  lemma {:induction false} WideSiblingsPart(t: Tree, key: Key, h: nat)
    requires Shaped(t, h) && WideSiblings(t, key, h)
    ensures MergesPart(t, key, h)
    decreases h
  {
    hide RemoveNode, Kept, KeysPart;
    if t.Internal? { WideSiblingsPart(t.children[RouteOf(t, key)], key, h - 1); }
  }

  function Small(id: nat, keys: seq<Key>, vals: seq<Value>): Tree
    requires |keys| == |vals| <= SLOTS
  {
    Leaf(id, keys + Zeros(SLOTS - |keys|), vals)
  }

  /** Two internal nodes with one leaf each, as left by earlier removals: removing key 1 makes key 2 unreachable. */
  lemma MergeLosesKey() returns (root: Tree)
    ensures ValidRoot(root, 2) && root.children != [] && Dense(root)
    ensures 1 in Contents(root) && 2 in Contents(root)
    ensures 2 !in Contents(Remove(root, 1, 2).tree)
  {
    var a := Internal(Zeros(SLOTS), [Small(0, [1, 2], [11, 12])]);
    var b := Internal(Zeros(SLOTS), [Small(1, [10], [20])]);
    root := Internal([10] + Zeros(SLOTS - 1), [a, b]);
    LoseExampleValid(a, b, root);
    assert RouteOf(root, 1) == 0 && RouteOf(a, 1) == 0;
    LoseExampleRemoved(a, b, root);
  }

  lemma LoseExampleValid(a: Tree, b: Tree, root: Tree)
    requires a == Internal(Zeros(SLOTS), [Small(0, [1, 2], [11, 12])])
    requires b == Internal(Zeros(SLOTS), [Small(1, [10], [20])])
    requires root == Internal([10] + Zeros(SLOTS - 1), [a, b])
    ensures Valid(root, 2, 0, TOP) && Dense(root) && 1 in Contents(root) && 2 in Contents(root)
  {
    LeafExampleValid(a.children[0], 0, 10);
    LeafExampleValid(b.children[0], 10, TOP);
    hide Valid, Small, Find;
    InternalValid(a, 1, 0, 10);
    InternalValid(b, 1, 10, TOP);
    InternalValid(root, 2, 0, TOP);
    ExampleHolds(a, root, 1);
    ExampleHolds(a, root, 2);
  }

  lemma LeafExampleValid(leaf: Tree, lo: nat, hi: nat)
    requires (leaf == Small(0, [1, 2], [11, 12]) && lo == 0 && hi == 10) || (leaf == Small(1, [10], [20]) && lo == 10 && hi == TOP)
    ensures Valid(leaf, 0, lo, hi) && Dense(leaf)
    ensures lo == 0 ==> Find(leaf, 1) == Some(11) && Find(leaf, 2) == Some(12)
  {
    if lo == 0 {
      LeafFind(leaf, 1, 0);
      LeafFind(leaf, 2, 1);
    }
  }

  lemma ExampleHolds(a: Tree, root: Tree, k: Key)
    requires a.Internal? && |a.children| == 1 && root.Internal? && root.children != [] && root.children[0] == a
    requires Valid(a, 1, 0, 10) && ValidRoot(root, 2) && Find(a.children[0], k).Some?
    ensures k in Contents(root)
  {
    hide Valid, Find;
    var v := Find(a.children[0], k).value;
    InternalFind(a, 1, 0, 10, k, v);
    InternalFind(root, 2, 0, TOP, k, v);
    ContentsFind(root, 2, k);
  }

  lemma LoseExampleRemoved(a: Tree, b: Tree, root: Tree)
    requires a == Internal(Zeros(SLOTS), [Small(0, [1, 2], [11, 12])])
    requires b == Internal(Zeros(SLOTS), [Small(1, [10], [20])])
    requires root == Internal([10] + Zeros(SLOTS - 1), [a, b]) && ValidRoot(root, 2)
    ensures 2 !in Contents(Remove(root, 1, 2).tree)
  {
    var leaf := a.children[0];
    assert Position(leaf.keys, 2, 1, 0) == 0;
    var r0 := RemoveNode(leaf, 1, 0);
    var r1 := RemoveNode(a, 1, 1);
    assert r1 == Repair(a, 0, r0);
    assert r1.tree.children == [r0.tree] && r1.tree.keys == Zeros(SLOTS);
    var r2 := RemoveNode(root, 1, 2);
    assert r2 == Repair(root, 0, r1);
    var joined := JoinInternal(r1.tree, 10, b);
    assert r2.tree.children == [joined];
    assert joined.children == [r0.tree, b.children[0]];
    assert RouteOf(joined, 2) == 1;
    FindRouted(joined, 2);
    assert Find(b.children[0], 2) == None;
  }
}
