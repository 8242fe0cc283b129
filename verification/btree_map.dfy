/** The B-tree object and its iterator. */
module BTreeMap {
  import opened Options
  import opened BTrees
  import opened BTreeRemove
  import opened BTreeLeaves

  // ---- insertion leaves no empty node

  lemma HalvesDense(t: Tree, id: nat)
    requires |t.keys| == SLOTS && Full(t) && Dense(t)
    ensures Dense(LeftHalf(t)) && Dense(RightHalf(t, id))
  {
  }

  ghost predicate AllDense(ts: seq<Tree>) {
    forall i :: 0 <= i < |ts| ==> Dense(ts[i])
  }

  lemma SplitChildDense(t: Tree, i: nat, id: nat)
    requires t.Internal? && |t.keys| == SLOTS && i < |t.children| < INTERNAL_MAX && |t.children[i].keys| == SLOTS
    requires AllDense(t.children)
    ensures SplitChild(t, i, id).Internal? && AllDense(SplitChild(t, i, id).children)
  {
    hide LeftHalf, RightHalf, Dense;
    var child := t.children[i];
    if Full(child) {
      HalvesDense(child, id);
      PartedList(t, i, LeftHalf(child), SplitKey(child), RightHalf(child, id));
    }
  }

  lemma {:induction false} InsertNodeDense(t: Tree, key: Key, val: Value, id: nat, h: nat, lo: nat, hi: nat)
    requires Valid(t, h, lo, hi) && lo <= key < hi && !Full(t) && (Dense(t) || t.Leaf?)
    ensures Dense(InsertNode(t, key, val, id, h, lo, hi).tree)
    decreases h
  {
    KeySlots(t, h, lo, hi);
    if t.Internal? {
      hide Valid, Find, SplitChild, NextChild, Full;
      var i := RouteOf(t, key);
      NextChildFits(t, h, lo, hi, key, id);
      SplitChildValid(t, h, lo, hi, i, id);
      SplitChildDense(t, i, id);
      var t1, j := SplitChild(t, i, id), NextChild(t, i, key);
      ChildRange(t1, h, lo, hi, key);
      InsertNodeDense(t1.children[j], key, val, id, h - 1, Low(t1, j, lo), High(t1, j, hi));
    }
  }

  lemma InsertKeepsDense(root: Tree, key: Key, val: Value, id: nat, h: nat)
    requires ValidRoot(root, h) && (root.children == [] || Dense(root)) && key < TOP
    ensures Dense(Insert(root, key, val, id, h).tree)
  {
    hide Valid, Find, SplitChild, NextChild, Dense;
    PreparedValid(root, h, id);
    var p := PreparedRoot(root, id);
    if root.children == [] {
      FirstDense(root, key, val, id, h);
    } else {
      PreparedDense(root, id);
      InsertNodeDense(p, key, val, id, PreparedHeight(root, h), 0, TOP);
    }
  }

  lemma PreparedDense(root: Tree, id: nat)
    requires root.Internal? && |root.keys| == SLOTS && root.children != [] && Dense(root)
    ensures Dense(PreparedRoot(root, id))
  {
    if Full(root) { HalvesDense(root, id); }
  }

  lemma FirstDense(root: Tree, key: Key, val: Value, id: nat, h: nat)
    requires ValidRoot(root, h) && root.Internal? && root.children == [] && key < TOP
    ensures Dense(Insert(root, key, val, id, h).tree)
  {
    PreparedValid(root, h, id);
    var p, leaf := PreparedRoot(root, id), Leaf(id, Zeros(SLOTS), []);
    assert p.children == [leaf] && RouteOf(p, key) == 0;
    assert SplitChild(p, 0, id) == p && NextChild(p, 0, key) == 0;
    ChildRange(p, 1, 0, TOP, key);
    InsertNodeDense(leaf, key, val, id, 0, Low(p, 0, 0), High(p, 0, TOP));
  }

  // ---- the tree

  class BTree {
    var root: Tree
    var size: nat
    /** The next leaf of every leaf. */
    var next: map<nat, Option<nat>>
    var nextId: nat
    ghost var height: nat
    ghost var insertOnly: bool

    ghost predicate Valid()
      reads this
    {
      && ValidRoot(root, height) && (root.children == [] || Dense(root)) && size == |Contents(root)|
      && (insertOnly ==> Linked() && FilledRoot(root, height))
    }

    ghost predicate Linked()
      reads this
    {
      Chain(next, Ids(Leaves(root))) && forall i :: i in Ids(Leaves(root)) ==> i < nextId
    }

    lemma LeavesFull()
      requires Valid()
      ensures forall l :: l in Leaves(root) ==> l.Leaf? && l.vals != [] && |l.vals| <= SLOTS == |l.keys|
    {
      if root.children != [] { DenseLeaves(root, height); }
    }

    constructor ()
      ensures Valid() && insertOnly && Contents(root) == map[]
    {
      root, size, next, nextId, height, insertOnly := Internal(Zeros(SLOTS), []), 0, map[], 0, 1, true;
      new;
      EmptyContents(root);
    }

    method Get(key: Key) returns (r: Option<Value>)
      requires Valid()
      ensures r == if key in Contents(root) then Some(Contents(root)[key]) else None
    {
      ContentsFind(root, height, key);
      r := Find(root, key);
    }

    /** Insertion into the map; a known key keeps its value, and its own slot is reported. */
    method Insert(key: Key, val: Value) returns (inserted: bool, place: Place)
      requires Valid() && key < TOP
      modifies this
      ensures Valid() && insertOnly == old(insertOnly)
      ensures inserted <==> key !in old(Contents(root))
      ensures Contents(root) == if inserted then old(Contents(root))[key := val] else old(Contents(root))
      ensures Slot(root, key) == Some(place)
    {
      hide ValidRoot, Dense, Contents, FilledRoot, Slot, Leaves, Chain;
      InsertRefines(root, key, val, nextId, height);
      InsertKeepsDense(root, key, val, nextId, height);
      if insertOnly {
        InsertKeepsChain(root, key, val, nextId, height, next);
        InsertKeepsFilled(root, key, val, nextId, height);
      }
      var r := BTrees.Insert(root, key, val, nextId, height);
      height := PreparedHeight(root, height);
      next := LinkNew(next, root, r.split, nextId);
      root, inserted, place := r.tree, r.inserted, r.place;
      if inserted { size := size + 1; }
      nextId := nextId + 1;
    }

    /**
     * Removal of a present key. The map loses exactly that key if and only if every merge with a lone sibling on
     * the path is parted; then the tree stays valid.
     */
    method Remove(key: Key) returns (removed: Option<Value>)
      requires Valid() && key in Contents(root)
      modifies this
      ensures old(root.children != [] && Shaped(root, height))
      ensures Contents(root) == old(Contents(root)) - {key} <==> old(MergesPart(root, key, height))
      ensures old(MergesPart(root, key, height)) ==> Valid() && removed == Some(old(Contents(root))[key])
      ensures var rest := RemoveNode(old(root), key, old(height)).tree;
              rest.Internal? && root == if |rest.children| == 1 && rest.children[0].Internal? then rest.children[0] else rest
    {
      hide ValidRoot, Dense, Contents, RemoveNode, MergesPart, FilledRoot, Linked, Collapsed;
      ContentsFind(root, height, key);
      HoldsKey(root, height, key);
      RemoveExact(root, key, height);
      if MergesPart(root, key, height) { RemoveRefines(root, key, height); }
      RemainsInternal(root, key, height);
      CollapseExact(RemoveNode(root, key, height).tree, height);
      var r := BTreeRemove.Remove(root, key, height);
      height := RemainingHeight(RemoveNode(root, key, height).tree, height);
      root, removed, insertOnly := r.tree, r.removed, false;
      if ValidRoot(root, height) { RootInternal(root, height); }
      HasSize(old(Contents(root)), key);
      size := size - 1;
    }

    method Clear()
      modifies this
      ensures Valid() && insertOnly && Contents(root) == map[]
    {
      root, size, next, nextId, height, insertOnly := Internal(Zeros(SLOTS), []), 0, map[], 0, 1, true;
      EmptyContents(root);
    }
  }

  lemma EmptyContents(root: Tree)
    requires root == Internal(Zeros(SLOTS), [])
    ensures Contents(root) == map[] && Leaves(root) == [] && ValidRoot(root, 1)
  {
  }

  lemma RootInternal(t: Tree, h: nat)
    requires ValidRoot(t, h)
    ensures t.Internal? && (Empty(t) <==> t.children == [])
  {
  }

  lemma HoldsKey(t: Tree, h: nat, k: Key)
    requires ValidRoot(t, h) && k in Keys(t)
    ensures t.children != [] && Shaped(t, h) && h > 0
    ensures k < TOP
  {
    if t.children != [] { KeysInRange(t, h, 0, TOP, k); }
  }

  lemma HasSize(m: map<Key, Value>, k: Key)
    requires k in m
    ensures |m| > 0 && |m - {k}| == |m| - 1
  {
    assert (m - {k}).Keys == m.Keys - {k};
  }

  // ---- iteration over an insert-only tree

  /** The node behind a leaf pointer. */
  function Deref(leaves: seq<Tree>, id: nat): Tree
    requires id in Ids(leaves)
  {
    if LeafId(leaves[0]) == id then leaves[0]
    else
      assert id in Ids(leaves[1..]) by { assert Ids(leaves)[1..] == Ids(leaves[1..]); }
      Deref(leaves[1..], id)
  }

  lemma {:induction false} DerefAt(leaves: seq<Tree>, at: nat)
    requires at < |leaves| && forall i, j :: 0 <= i < j < |leaves| ==> LeafId(leaves[i]) != LeafId(leaves[j])
    ensures Ids(leaves)[at] in Ids(leaves) && Deref(leaves, Ids(leaves)[at]) == leaves[at]
  {
    if at > 0 {
      assert Ids(leaves)[1..] == Ids(leaves[1..]);
      DerefAt(leaves[1..], at - 1);
    }
  }

  lemma {:induction false} DenseLeaves(t: Tree, h: nat)
    requires Dense(t) && Shaped(t, h)
    ensures Leaves(t) != [] && forall l :: l in Leaves(t) ==> l.Leaf? && l.vals != [] && |l.vals| <= SLOTS == |l.keys|
    decreases h, 0
  {
    if t.Internal? { DenseLeavesOf(t.children, h - 1); }
  }

  lemma {:induction false} DenseLeavesOf(ts: seq<Tree>, h: nat)
    requires forall i :: 0 <= i < |ts| ==> Dense(ts[i]) && Shaped(ts[i], h)
    ensures ts != [] ==> LeavesOf(ts) != []
    ensures forall l :: l in LeavesOf(ts) ==> l.Leaf? && l.vals != [] && |l.vals| <= SLOTS == |l.keys|
    decreases h, 1 + |ts|
  {
    if ts != [] {
      DenseLeaves(ts[0], h);
      DenseLeavesOf(ts[1..], h);
    }
  }

  lemma FirstChildLeaf(t: Tree)
    requires t.Internal? && t.children != [] && Leaves(t.children[0]) != []
    ensures Leaves(t) != [] && Leaves(t)[0] == Leaves(t.children[0])[0]
  {
  }

  lemma EntriesFrom(leaves: seq<Tree>, at: nat)
    requires at < |leaves|
    ensures Entries(leaves[at..]) == LeafEntries(leaves[at]) + Entries(leaves[at + 1..])
  {
    assert leaves[at..][0] == leaves[at] && leaves[at..][1..] == leaves[at + 1..];
  }

  lemma NothingLeft(leaves: seq<Tree>)
    ensures Entries(leaves[|leaves|..]) == []
  {
  }

  class Iterator {
    const tree: BTree
    var leaf: Option<nat>
    var index: nat
    /** The leaf's number in the list of leaves. */
    ghost var at: nat

    ghost predicate Valid()
      reads this, tree
    {
      && tree.Valid() && tree.insertOnly && at <= |Leaves(tree.root)|
      && (leaf.None? <==> at == |Leaves(tree.root)|)
      && (leaf.Some? ==> leaf.value == Ids(Leaves(tree.root))[at] && Leaves(tree.root)[at].Leaf?
                         && index < |Leaves(tree.root)[at].vals| <= |Leaves(tree.root)[at].keys|)
    }

    /** The entries still to come. */
    ghost function Remaining(): seq<(Key, Value)>
      requires Valid()
      reads this, tree
    {
      if leaf.None? then [] else Entries(Leaves(tree.root)[at..])[index..]
    }

    constructor (tree: BTree)
      requires tree.Valid() && tree.insertOnly
      ensures Valid() && this.tree == tree && Remaining() == Entries(Leaves(tree.root))
    {
      this.tree := tree;
      index, at := 0, 0;
      leaf := None;
      new;
      if tree.root.children != [] {
        DenseLeaves(tree.root, tree.height);
        var id := LeftmostLeaf(tree.root, tree.height);
        leaf := Some(id);
      }
      assert Leaves(tree.root)[0..] == Leaves(tree.root);
    }

    method HasNext() returns (r: bool)
      requires Valid()
      ensures r <==> Remaining() != []
    {
      hide Chain, FilledRoot, ValidRoot, Dense, Contents, Leaves, Entries, Deref, LeafEntries;
      if leaf.None? { return false; }
      AtLeaf();
      tree.LeavesFull();
      NextEntry(Leaves(tree.root), at, index);
      var node := Deref(Leaves(tree.root), leaf.value);
      var sibling := tree.next[leaf.value];
      var more := sibling.Some? && |Deref(Leaves(tree.root), sibling.value).vals| > 0;
      r := index < |node.vals| || more;
    }

    lemma AtLeaf()
      requires Valid() && leaf.Some?
      ensures leaf.value in Ids(Leaves(tree.root)) && Deref(Leaves(tree.root), leaf.value) == Leaves(tree.root)[at]
      ensures leaf.value in tree.next
      ensures tree.next[leaf.value] == if at + 1 < |Leaves(tree.root)| then Some(Ids(Leaves(tree.root))[at + 1]) else None
      ensures at + 1 < |Leaves(tree.root)| ==>
                && Ids(Leaves(tree.root))[at + 1] in Ids(Leaves(tree.root))
                && Deref(Leaves(tree.root), Ids(Leaves(tree.root))[at + 1]) == Leaves(tree.root)[at + 1]
    {
      hide FilledRoot, ValidRoot, Dense, Contents, Leaves, Deref, Ids;
      DerefAt(Leaves(tree.root), at);
      if at + 1 < |Leaves(tree.root)| { DerefAt(Leaves(tree.root), at + 1); }
    }

    /** The next entry; none after the last one. */
    method Next() returns (entry: Option<(Key, Value)>)
      requires Valid()
      modifies this
      ensures Valid()
      ensures old(Remaining()) == [] ==> entry == None && Remaining() == []
      ensures old(Remaining()) != [] ==> entry == Some(old(Remaining())[0]) && Remaining() == old(Remaining())[1..]
    {
      hide Chain, FilledRoot, ValidRoot, Dense, Contents, Leaves, Entries, Deref, LeafEntries;
      if leaf.None? { return None; }
      AtLeaf();
      tree.LeavesFull();
      NextEntry(Leaves(tree.root), at, index);
      var node := Deref(Leaves(tree.root), leaf.value);
      entry := Some((node.keys[index], node.vals[index]));
      index := index + 1;
      if index >= |node.vals| {
        index := 0;
        leaf := tree.next[leaf.value];
        at := at + 1;
      }
    }
  }

  /** The entry at `index` of leaf `at` comes first; after the leaf's last entry come those of the next leaf. */
  lemma NextEntry(leaves: seq<Tree>, at: nat, index: nat)
    requires at < |leaves| && leaves[at].Leaf? && index < |leaves[at].vals| <= |leaves[at].keys|
    ensures index < |Entries(leaves[at..])| && Entries(leaves[at..])[index] == (leaves[at].keys[index], leaves[at].vals[index])
    ensures index + 1 == |leaves[at].vals| ==> Entries(leaves[at..])[index..][1..] == Entries(leaves[at + 1..])
    ensures at + 1 == |leaves| ==> Entries(leaves[at + 1..]) == []
    ensures Entries(leaves[at..])[index..] != [] && Entries(leaves[at..])[index..][0] == Entries(leaves[at..])[index]
    ensures Entries(leaves[at..])[index..][1..] == Entries(leaves[at..])[index + 1..]
  {
    EntriesFrom(leaves, at);
    NothingLeft(leaves);
    var es := Entries(leaves[at..]);
    assert es[index..][1..] == es[index + 1..];
  }

  method LeftmostLeaf(t: Tree, ghost h: nat) returns (id: nat)
    requires Dense(t) && Shaped(t, h)
    ensures Leaves(t) != [] && id == LeafId(Leaves(t)[0])
  {
    DenseLeaves(t, h);
    var node := t;
    ghost var level := h;
    while node.Internal?
      invariant Dense(node) && Shaped(node, level) && Leaves(node) != [] && Leaves(node)[0] == Leaves(t)[0]
      decreases level
    {
      DenseLeaves(node.children[0], level - 1);
      FirstChildLeaf(node);
      node, level := node.children[0], level - 1;
    }
    id := node.id;
  }

  /** Iterating yields every entry of the map once, in strictly increasing key order, and then stops. */
  method IterateAll(tree: BTree) returns (entries: seq<(Key, Value)>)
    requires tree.Valid() && tree.insertOnly
    ensures Ascending(entries, 0, TOP)
    ensures forall k: Key, v: Value :: (k, v) in entries <==> k in Contents(tree.root) && Contents(tree.root)[k] == v
  {
    hide Leaves, Entries, Chain, Contents, ValidRoot, Dense, FilledRoot, Ids, Iterator.Remaining;
    var it := new Iterator(tree);
    entries := [];
    ghost var all := Entries(Leaves(tree.root));
    var more := it.HasNext();
    while more
      invariant fresh(it) && it.tree == tree && it.Valid() && entries + it.Remaining() == all && (more <==> it.Remaining() != [])
      decreases |it.Remaining()|
    {
      var e := it.Next();
      entries := entries + [e.value];
      more := it.HasNext();
    }
    assert it.Remaining() == [] && entries + [] == entries;
    AllEntries(tree.root, tree.height);
  }

  lemma AllEntries(t: Tree, h: nat)
    requires ValidRoot(t, h)
    ensures Ascending(Entries(Leaves(t)), 0, TOP)
    ensures forall k: Key, v: Value :: (k, v) in Entries(Leaves(t)) <==> k in Contents(t) && Contents(t)[k] == v
  {
    hide Valid, Find, Contents, Leaves, Entries;
    if t.Internal? && t.children == [] {
      EmptyEntries(t);
    } else {
      EntriesAscend(t, h, 0, TOP);
    }
    forall k: Key, v: Value ensures (k, v) in Entries(Leaves(t)) <==> k in Contents(t) && Contents(t)[k] == v {
      ContentsFind(t, h, k);
      if t.Internal? && t.children == [] { EmptyFinds(t, k); } else { EntriesExact(t, h, 0, TOP, k, v); }
    }
  }

  lemma EmptyEntries(t: Tree)
    requires t.Internal? && t.children == []
    ensures Entries(Leaves(t)) == []
  {
  }

  lemma EmptyFinds(t: Tree, k: Key)
    requires t.Internal? && t.children == []
    ensures Find(t, k) == None && Entries(Leaves(t)) == []
  {
  }
}
