/** The B-tree on the heap: nodes that point to nodes, and the insertion that changes them in place. */
module BTreeHeap {
  import opened Options
  import opened BTrees
  import opened BTreeNodes

  ghost function ReprOf(kids: seq<Cell>): set<object>
    reads kids
  {
    set k, o | k in kids && o in k.repr :: o
  }

  ghost predicate Separate(kids: seq<Cell>)
    reads kids
  {
    forall i, j :: 0 <= i < j < |kids| ==> kids[i].repr !! kids[j].repr
  }

  lemma Apart(kids: seq<Cell>, n: nat)
    requires Separate(kids) && n <= |kids|
    ensures ReprOf(kids[..n]) !! ReprOf(kids[n..]) && Separate(kids[..n]) && Separate(kids[n..])
    ensures ReprOf(kids[..n]) <= ReprOf(kids) && ReprOf(kids[n..]) <= ReprOf(kids)
  {
  }

  lemma HasRepr(kids: seq<Cell>, i: nat)
    requires i < |kids|
    ensures kids[i].repr <= ReprOf(kids)
  {
  }

  lemma Below(kids: seq<Cell>, all: set<object>)
    requires forall i :: 0 <= i < |kids| ==> kids[i].repr <= all
    ensures ReprOf(kids) <= all
  {
  }

  lemma Outside(kids: seq<Cell>, own: set<object>)
    requires forall i :: 0 <= i < |kids| ==> own !! kids[i].repr
    ensures own !! ReprOf(kids)
  {
  }

  lemma HalvesAre(t: Tree, id: nat)
    requires t.Internal? && |t.keys| == SLOTS && Full(t)
    ensures LeftHalf(t).Internal? && LeftHalf(t).children == t.children[..INTERNAL_MIN]
    ensures RightHalf(t, id) == RightHalf(t, 0) == Internal(RightHalf(t, 0).keys, t.children[INTERNAL_MIN..])
  {
  }

  ghost function TreesOf(kids: seq<Cell>): (trees: seq<Tree>)
    reads kids
    ensures |trees| == |kids| && forall i :: 0 <= i < |kids| ==> trees[i] == kids[i].tree
  {
    seq(|kids|, (i: nat) requires i < |kids| reads kids => kids[i].tree)
  }

  lemma SeparateWith(kids: seq<Cell>, i: nat, more: Cell)
    requires Separate(kids) && i <= |kids| && forall k :: 0 <= k < |kids| ==> kids[k].repr !! more.repr
    ensures Separate(kids[..i] + [more] + kids[i..])
  {
  }

  lemma SplitIs(t: Tree, i: nat, id: nat)
    requires t.Internal? && |t.keys| == SLOTS && i < |t.children| < INTERNAL_MAX && |t.children[i].keys| == SLOTS
    ensures BTrees.SplitChild(t, i, id)
            == if !Full(t.children[i]) then t
               else BTrees.ShiftInsert(Internal(t.keys, t.children[i := LeftHalf(t.children[i])]), i + 1, RightHalf(t.children[i], id),
                                       SplitKey(t.children[i]))
  {
  }

  /** One level of the insertion. */
  lemma DescentIs(t: Tree, key: Key, val: Value, id: nat, h: nat, lo: nat, hi: nat)
    requires BTrees.Valid(t, h, lo, hi) && lo <= key < hi && !Full(t) && t.Internal?
    ensures h > 0 && |t.keys| == SLOTS && 0 < |t.children| < INTERNAL_MAX
    ensures var i := RouteOf(t, key);
      && |t.children[i].keys| == SLOTS
      && var t1, j := BTrees.SplitChild(t, i, id), NextChild(t, i, key);
      && t1.Internal? && |t1.keys| == SLOTS && j < |t1.children| <= INTERNAL_MAX && !Full(t1.children[j])
      && BTrees.Valid(t1.children[j], h - 1, Low(t1, j, lo), High(t1, j, hi)) && Low(t1, j, lo) <= key < High(t1, j, hi)
      && var r, below := BTrees.InsertNode(t, key, val, id, h, lo, hi),
                         BTrees.InsertNode(t1.children[j], key, val, id, h - 1, Low(t1, j, lo), High(t1, j, hi));
         r.tree == t1.(children := t1.children[j := below.tree]) && r.inserted == below.inserted && r.place == below.place
  {
    hide BTrees.Bounded, BTrees.SplitChild, RouteOf;
    NextChildFits(t, h, lo, hi, key, id);
    SplitChildValid(t, h, lo, hi, RouteOf(t, key), id);
    ChildRange(BTrees.SplitChild(t, RouteOf(t, key), id), h, lo, hi, key);
  }

  /** A node: a leaf, or an inner node whose children are nodes. `tree` is the value it stands for. */
  class Cell {
    var leaf: LeafNode?
    var inner: InternalNode?<Cell>
    ghost var tree: Tree
    ghost var repr: set<object>

    ghost predicate IsLeaf()
      reads this, repr
    {
      && leaf != null && inner == null && leaf in repr && leaf.leafs in repr && leaf.keys in repr
      && leaf.Valid() && tree == leaf.Node()
    }

    /** An inner node's own slots. */
    ghost predicate IsInner()
      reads this, repr
    {
      && leaf == null && inner != null && inner in repr && inner.children in repr && inner.keys in repr
      && inner.Valid() && |inner.Kids()| == inner.nchildren
      && tree.Internal? && tree.keys == inner.keys[..] && |tree.children| == inner.nchildren
    }

    ghost function Own(): set<object>
      reads this
    {
      if inner == null then {this} else {this, inner, inner.children, inner.keys}
    }

    /** The node and what is below it is a tree without sharing, with `h` inner levels. */
    ghost predicate Valid(h: nat)
      reads this, repr
      decreases h
    {
      && this in repr
      && if h == 0 then IsLeaf()
         else
           && IsInner()
           && (forall i :: 0 <= i < |inner.Kids()| ==>
                 var k := inner.Kids()[i];
                 k in repr && k.repr <= repr && Own() !! k.repr && k.Valid(h - 1) && k.tree == tree.children[i])
           && Separate(inner.Kids())
    }

    /** The nodes below, each valid and apart from the others and from this node's own objects. */
    lemma KidsOf(h: nat)
      requires h > 0 && Valid(h)
      ensures this in repr && IsInner() && Own() <= repr && Separate(inner.Kids())
      ensures forall i :: 0 <= i < |inner.Kids()| ==>
                var k := inner.Kids()[i];
                k in repr && k in k.repr && k.repr <= repr && Own() !! k.repr && k.Valid(h - 1) && k.tree == tree.children[i]
    {
    }

    lemma KidsApart(h: nat, n: nat)
      requires h > 0 && Valid(h) && n <= |inner.Kids()|
      ensures var lower, upper := ReprOf(inner.Kids()[..n]), ReprOf(inner.Kids()[n..]);
              lower !! upper && lower <= repr && upper <= repr && Own() !! lower && Own() !! upper
      ensures Separate(inner.Kids()[..n]) && Separate(inner.Kids()[n..])
    {
      hide Valid, ReprOf, Separate;
      KidsOf(h);
      Apart(inner.Kids(), n);
      Below(inner.Kids(), repr);
      Outside(inner.Kids(), Own());
    }

    lemma InOwnRepr(h: nat)
      requires Valid(h)
      ensures this in repr
    {
    }

    lemma FromKids(h: nat)
      requires h > 0 && this in repr && IsInner() && Separate(inner.Kids())
      requires forall i :: 0 <= i < |inner.Kids()| ==>
                 var k := inner.Kids()[i];
                 k in repr && k.repr <= repr && Own() !! k.repr && k.Valid(h - 1) && k.tree == tree.children[i]
      ensures Valid(h)
    {
    }

    constructor OfLeaf(leaf: LeafNode)
      requires leaf.Valid()
      ensures Valid(0) && tree == leaf.Node() && repr == {this, leaf, leaf.leafs, leaf.keys} && this.leaf == leaf
    {
      this.leaf, inner := leaf, null;
      tree := leaf.Node();
      repr := {this, leaf, leaf.leafs, leaf.keys};
    }

    constructor OfInner(inner: InternalNode<Cell>, ghost tree: Tree, ghost below: set<object>)
      ensures leaf == null && this.inner == inner && this.tree == tree
      ensures repr == {this, inner, inner.children, inner.keys} + below
    {
      leaf, this.inner := null, inner;
      this.tree := tree;
      repr := {this, inner, inner.children, inner.keys} + below;
    }

    /** Splits a full node; the new sibling takes over the upper half. */
    method Halve(id: nat, ghost h: nat) returns (sibling: Cell, siblingKey: Key)
      requires Valid(h) && Full(tree)
      modifies repr
      ensures old(|tree.keys|) == SLOTS && Valid(h) && sibling.Valid(h)
      ensures fresh(sibling) && fresh(sibling.repr - old(repr)) && repr <= old(repr) && repr !! sibling.repr
      ensures tree == LeftHalf(old(tree)) && sibling.tree == RightHalf(old(tree), id) && siblingKey == SplitKey(old(tree))
    {
      if leaf != null {
        sibling, siblingKey := HalveLeaf(id);
      } else {
        sibling, siblingKey := HalveInner(id, h);
      }
    }

    method HalveLeaf(id: nat) returns (sibling: Cell, siblingKey: Key)
      requires Valid(0) && Full(tree)
      modifies repr
      ensures old(|tree.keys|) == SLOTS && Valid(0) && sibling.Valid(0)
      ensures fresh(sibling) && fresh(sibling.repr) && repr == old(repr)
      ensures tree == LeftHalf(old(tree)) && sibling.tree == RightHalf(old(tree), id) && siblingKey == SplitKey(old(tree))
    {
      UsedAt(leaf.leafs[..], leaf.nleafs);
      var right;
      right, siblingKey := leaf.Split(id);
      tree := leaf.Node();
      sibling := new Cell.OfLeaf(right);
    }

    method HalveInner(id: nat, ghost h: nat) returns (sibling: Cell, siblingKey: Key)
      requires h > 0 && Valid(h) && Full(tree)
      modifies repr
      ensures old(|tree.keys|) == SLOTS && Valid(h) && sibling.Valid(h)
      ensures fresh(sibling) && fresh(sibling.repr - old(repr)) && repr <= old(repr) && repr !! sibling.repr
      ensures tree == LeftHalf(old(tree)) && sibling.tree == RightHalf(old(tree), id) && siblingKey == SplitKey(old(tree))
    {
      hide Valid, ReprOf, Separate, LeftHalf, RightHalf;
      KidsOf(h);
      ghost var kids, was := inner.Kids(), tree;
      ghost var lower, upper := kids[..INTERNAL_MIN], kids[INTERNAL_MIN..];
      KidsApart(h, INTERNAL_MIN);
      assert this !in kids && this !in lower && this !in upper;
      var right;
      right, siblingKey := SplitOwn();
      HalvesAre(was, id);
      sibling := Over(right, upper, ReprOf(upper), RightHalf(was, id), h);
      Keep(lower, h);
    }

    /** The node is left with the nodes `kids`. */
    ghost method Keep(kids: seq<Cell>, h: nat)
      requires h > 0 && this in repr && IsInner() && kids == inner.Kids() && Separate(kids) && Own() !! ReprOf(kids)
      requires forall i :: 0 <= i < |kids| ==> kids[i].Valid(h - 1) && kids[i].tree == tree.children[i]
      modifies this`repr
      ensures Valid(h) && repr == Own() + old(ReprOf(kids))
    {
      hide Valid, Separate, ReprOf;
      forall i | 0 <= i < |kids| ensures kids[i].repr <= ReprOf(kids) && kids[i] in kids[i].repr {
        HasRepr(kids, i);
        kids[i].InOwnRepr(h - 1);
      }
      repr := Own() + ReprOf(kids);
      FromKids(h);
    }

    /** A new node over the nodes `kids`. */
    static method Over(inner: InternalNode<Cell>, ghost kids: seq<Cell>, ghost below: set<object>, ghost tree: Tree, ghost h: nat)
      returns (cell: Cell)
      requires h > 0 && inner.Valid() && inner.Kids() == kids && |kids| == inner.nchildren && Separate(kids)
      requires tree.Internal? && tree.keys == inner.keys[..] && |tree.children| == |kids|
      requires below == ReprOf(kids) && {inner, inner.children, inner.keys} !! below
      requires forall i :: 0 <= i < |kids| ==> kids[i].Valid(h - 1) && kids[i].tree == tree.children[i]
      ensures fresh(cell) && cell.Valid(h) && cell.tree == tree
      ensures cell.repr == {cell, inner, inner.children, inner.keys} + below
    {
      hide Cell.Valid, Separate, ReprOf;
      forall i | 0 <= i < |kids| ensures kids[i].repr <= ReprOf(kids) && kids[i] in kids[i].repr {
        HasRepr(kids, i);
        kids[i].InOwnRepr(h - 1);
      }
      cell := new Cell.OfInner(inner, tree, below);
      cell.FromKids(h);
    }

    /** Only the node's own arrays change. */
    method SplitOwn() returns (right: InternalNode<Cell>, siblingKey: Key)
      requires IsInner() && Full(tree)
      modifies this`tree, inner, inner.children, inner.keys
      ensures old(|tree.keys|) == SLOTS && IsInner() && tree == LeftHalf(old(tree)) && inner.Kids() == old(inner.Kids())[..INTERNAL_MIN]
      ensures fresh(right) && fresh(right.children) && fresh(right.keys) && right.Valid() && |right.Kids()| == right.nchildren
      ensures right.keys[..] == RightHalf(old(tree), 0).keys && right.Kids() == old(inner.Kids())[INTERNAL_MIN..]
      ensures siblingKey == SplitKey(old(tree))
    {
      ghost var was := tree;
      right, siblingKey := inner.Split();
      tree := LeftHalf(was);
    }

    /** The nodes are below this one, valid and apart. */
    ghost predicate Holds(kids: seq<Cell>, h: nat)
      reads this, repr, kids, set k, o | k in kids && o in k.repr :: o
    {
      && Separate(kids)
      && forall i :: 0 <= i < |kids| ==>
           kids[i] in repr && kids[i] in kids[i].repr && kids[i].repr <= repr && Own() !! kids[i].repr && kids[i].Valid(h)
    }

    /** Takes in a new child behind child `i`. */
    method Adopt(i: nat, sibling: Cell, siblingKey: Key, ghost kids: seq<Cell>, ghost h: nat)
      requires h > 0 && this in repr && IsInner() && kids == inner.Kids() && i < |kids| < INTERNAL_MAX && Holds(kids, h - 1)
      requires sibling in sibling.repr && sibling.Valid(h - 1) && Own() !! sibling.repr
      requires forall k :: 0 <= k < |kids| ==> kids[k].repr !! sibling.repr
      modifies this`tree, this`repr, inner, inner.children, inner.keys
      ensures Valid(h) && repr == old(repr) + sibling.repr && inner == old(inner)
      ensures tree == BTrees.ShiftInsert(Internal(old(tree).keys, old(TreesOf(kids))), i + 1, old(sibling.tree), siblingKey)
    {
      hide Valid, Separate;
      ghost var was, trees, more := tree, TreesOf(kids), kids[..i + 1] + [sibling] + kids[i + 1..];
      SeparateWith(kids, i + 1, sibling);
      inner.ShiftInsert(i + 1, sibling, siblingKey);
      tree := BTrees.ShiftInsert(Internal(was.keys, trees), i + 1, sibling.tree, siblingKey);
      repr := repr + sibling.repr;
      assert Separate(more);
      forall k | 0 <= k < |more|
        ensures more[k] in repr && more[k].repr <= repr && Own() !! more[k].repr && more[k].Valid(h - 1) && more[k].tree == tree.children[k]
      {
        assert more[k] == if k <= i then kids[k] else if k == i + 1 then sibling else kids[k - 1];
      }
      FromKids(h);
    }

    /** Splits child `i` when it is full; the result is the child in which the descent goes on. */
    method SplitChild(i: nat, key: Key, id: nat, ghost h: nat) returns (j: nat)
      requires h > 0 && Valid(h) && i < |tree.children| < INTERNAL_MAX && |tree.children[i].keys| == SLOTS
      modifies repr
      ensures Valid(h) && fresh(repr - old(repr))
      ensures |old(tree).keys| == SLOTS && tree == BTrees.SplitChild(old(tree), i, id) && j == NextChild(old(tree), i, key)
    {
      hide Valid, LeftHalf, RightHalf, SplitKey, Separate, Holds, BTrees.ShiftInsert, Full, TreesOf, InternalNode.Kids, InternalNode.Valid;
      TreesAre(h);
      ghost var kids, was := inner.Kids(), tree;
      SplitIs(was, i, id);
      var child := Child(i, h);
      var full := child.IsFull(h - 1);
      j := i;
      if full {
        var sibling, siblingKey := HalveChild(i, child, id, kids, h);
        if key >= siblingKey { j := i + 1; }
        Adopt(i, sibling, siblingKey, kids, h);
      }
    }

    /** Halves child `i`; the others stay as they are. */
    method HalveChild(i: nat, child: Cell, id: nat, ghost kids: seq<Cell>, ghost h: nat) returns (sibling: Cell, siblingKey: Key)
      requires h > 0 && Valid(h) && i < |kids| && kids == inner.Kids() && child == kids[i] && Full(child.tree)
      modifies child.repr
      ensures this in repr && IsInner() && tree == old(tree) && repr == old(repr) && inner == old(inner) && kids == inner.Kids()
      ensures Holds(kids, h - 1) && sibling in sibling.repr && sibling.Valid(h - 1) && Own() !! sibling.repr
      ensures forall k :: 0 <= k < |kids| ==> kids[k].repr !! sibling.repr
      ensures old(|child.tree.keys|) == SLOTS && siblingKey == SplitKey(old(child.tree)) && fresh(sibling.repr - old(repr))
      ensures TreesOf(kids) == old(TreesOf(kids))[i := LeftHalf(old(child.tree))] && sibling.tree == RightHalf(old(child.tree), id)
    {
      hide Valid, LeftHalf, RightHalf, SplitKey;
      KidsOf(h);
      sibling, siblingKey := child.Halve(id, h - 1);
      sibling.InOwnRepr(h - 1);
      child.InOwnRepr(h - 1);
      forall k | 0 <= k < |kids| && k != i
        ensures kids[k].Valid(h - 1) && kids[k].tree == old(kids[k].tree) && kids[k].repr == old(kids[k].repr)
      {
        assert kids[k].repr !! child.repr;
      }
    }

    lemma TreesAre(h: nat)
      requires h > 0 && Valid(h)
      ensures this in repr && IsInner() && Own() <= repr
      ensures TreesOf(inner.Kids()) == tree.children && |tree.keys| == SLOTS
      ensures forall i :: 0 <= i < |inner.Kids()| ==>
                var k := inner.Kids()[i];
                k.Valid(h - 1) && k.tree == tree.children[i] && k.repr <= repr && k in repr
    {
      hide Cell.Valid;
      KidsOf(h);
    }

    method Child(i: nat, ghost h: nat) returns (child: Cell)
      requires h > 0 && Valid(h) && i < |tree.children|
      ensures inner != null && i < |inner.Kids()| && child == inner.Kids()[i]
    {
      inner.KidsAt();
      child := inner.children[i].value;
    }

    method IsFull(ghost h: nat) returns (full: bool)
      requires Valid(h)
      ensures full == Full(tree)
    {
      if leaf != null {
        UsedAt(leaf.leafs[..], leaf.nleafs);
        full := leaf.nleafs == LEAF_MAX;
      } else {
        full := inner.nchildren == INTERNAL_MAX;
      }
    }

    /** The descent of an insertion, changing the nodes it meets in place. */
    method InsertNode(key: Key, val: Value, id: nat, ghost h: nat, ghost lo: nat, ghost hi: nat)
      returns (inserted: bool, place: Place)
      requires Valid(h) && BTrees.Valid(tree, h, lo, hi) && lo <= key < hi && !Full(tree)
      modifies repr
      ensures Valid(h) && fresh(repr - old(repr))
      ensures var r := BTrees.InsertNode(old(tree), key, val, id, h, lo, hi);
              tree == r.tree && inserted == r.inserted && place == r.place
      decreases h, 1
    {
      hide Valid, Holds, BTrees.Valid, BTrees.SplitChild, BTrees.InsertNode, NextChild, RouteOf, Full, IsInner;
      InnerShape(h);
      if leaf != null {
        inserted, place := InsertHere(key, val, id, lo, hi);
      } else {
        DescentIs(tree, key, val, id, h, lo, hi);
        var i := Routed(key, h, lo, hi);
        var j := SplitChild(i, key, id, h);
        ghost var now := tree;
        inserted, place := InsertBelow(j, key, val, id, h, Low(now, j, lo), High(now, j, hi));
      }
    }

    lemma InnerShape(h: nat)
      requires Valid(h)
      ensures if leaf != null then h == 0 else h > 0 && tree.Internal?
    {
    }

    /** Inserts below child `j`; the other children stay as they are. */
    method InsertBelow(j: nat, key: Key, val: Value, id: nat, ghost h: nat, ghost lo: nat, ghost hi: nat)
      returns (inserted: bool, place: Place)
      requires h > 0 && Valid(h) && tree.Internal? && j < |tree.children| && !Full(tree.children[j])
      requires BTrees.Valid(tree.children[j], h - 1, lo, hi) && lo <= key < hi
      modifies repr
      ensures Valid(h) && fresh(repr - old(repr)) && old(tree).Internal? && j < |old(tree).children|
      ensures var r := BTrees.InsertNode(old(tree).children[j], key, val, id, h - 1, lo, hi);
              tree == old(tree).(children := old(tree).children[j := r.tree]) && inserted == r.inserted && place == r.place
      decreases h, 0
    {
      hide Valid, BTrees.Valid, BTrees.InsertNode, Full;
      KidsOf(h);
      ghost var kids, was := inner.Kids(), tree;
      var child := Child(j, h);
      inserted, place := child.InsertNode(key, val, id, h - 1, lo, hi);
      child.InOwnRepr(h - 1);
      forall k | 0 <= k < |kids| && k != j
        ensures kids[k].Valid(h - 1) && kids[k].tree == was.children[k] && kids[k].repr == old(kids[k].repr)
      {
      }
      tree := was.(children := was.children[j := child.tree]);
      repr := repr + child.repr;
      FromKids(h);
    }

    method InsertHere(key: Key, val: Value, ghost id: nat, ghost lo: nat, ghost hi: nat) returns (inserted: bool, place: Place)
      requires Valid(0) && BTrees.Valid(tree, 0, lo, hi) && !Full(tree) && lo <= key < hi
      modifies repr
      ensures Valid(0) && repr == old(repr)
      ensures var r := BTrees.InsertNode(old(tree), key, val, id, 0, lo, hi);
              tree == r.tree && inserted == r.inserted && place == r.place
    {
      UsedAt(leaf.leafs[..], leaf.nleafs);
      var pos;
      inserted, pos := leaf.Insert(key, val);
      tree := leaf.Node();
      place := Place(leaf.id, pos);
    }

    method Routed(key: Key, ghost h: nat, ghost lo: nat, ghost hi: nat) returns (i: nat)
      requires h > 0 && Valid(h) && BTrees.Valid(tree, h, lo, hi)
      ensures |tree.keys| == SLOTS && tree.Internal? && 0 < |tree.children| <= INTERNAL_MAX && i == RouteOf(tree, key)
    {
      hide BTrees.Bounded;
      i := inner.NextInternal(key);
    }

    method IsEmpty(ghost h: nat) returns (empty: bool)
      requires h > 0 && Valid(h)
      ensures tree.Internal? && (empty <==> tree.children == [])
    {
      empty := inner.nchildren == 0;
    }

    /** Gives an empty node its first leaf. */
    method FirstLeaf(id: nat, ghost h: nat)
      requires h == 1 && Valid(h) && tree.Internal? && tree.children == []
      modifies repr
      ensures Valid(h) && fresh(repr - old(repr)) && tree == Internal(old(tree).keys, [Leaf(id, Zeros(SLOTS), [])])
    {
      hide Valid;
      KidsOf(h);
      var first := new LeafNode(id);
      var cell := new Cell.OfLeaf(first);
      inner.children[0] := Some(cell);
      inner.nchildren := 1;
      UsedIs(inner.children[..], 1, [cell]);
      tree := Internal(tree.keys, [cell.tree]);
      repr := repr + cell.repr;
      FromKids(h);
    }

    method GetHere(key: Key, ghost lo: nat, ghost hi: nat) returns (r: Option<Value>)
      requires Valid(0) && BTrees.Valid(tree, 0, lo, hi)
      ensures r == Find(tree, key)
    {
      UsedAt(leaf.leafs[..], leaf.nleafs);
      var i := leaf.NextLeaf(key);
      if i < leaf.nleafs && leaf.keys[i] == key { r := leaf.leafs[i]; } else { r := None; }
    }

    /** The search, from node to node. */
    method Get(key: Key, ghost h: nat, ghost lo: nat, ghost hi: nat) returns (r: Option<Value>)
      requires Valid(h) && (BTrees.Valid(tree, h, lo, hi) || (tree.Internal? && tree.children == [] && h > 0))
      ensures r == Find(tree, key)
      decreases h
    {
      hide Valid, IsInner, BTrees.Valid, Find, RouteOf;
      InnerShape(h);
      if leaf != null {
        r := GetHere(key, lo, hi);
      } else {
        var empty := IsEmpty(h);
        if empty {
          r := None;
          NothingFound(tree, key);
        } else {
          var i := Routed(key, h, lo, hi);
          ChildValid(tree, h, lo, hi, i);
          FindRouted(tree, key);
          TreesAre(h);
          var child := Child(i, h);
          r := child.Get(key, h - 1, Low(tree, i, lo), High(tree, i, hi));
        }
      }
    }
  }

  lemma NothingFound(t: Tree, key: Key)
    requires t.Internal? && t.children == []
    ensures Find(t, key) == None
  {
  }

  /** A root over two halves. */
  method NewRoot(a: Cell, b: Cell, key: Key, ghost below: set<object>, ghost h: nat) returns (cell: Cell)
    requires a.Valid(h) && b.Valid(h) && a.repr !! b.repr && below == ReprOf([a, b])
    ensures fresh(cell) && cell.Valid(h + 1) && cell.tree == Internal([key] + Zeros(SLOTS - 1), [a.tree, b.tree])
    ensures fresh(cell.repr - below)
  {
    hide Cell.Valid;
    var inner := new InternalNode<Cell>();
    inner.children[0], inner.children[1], inner.keys[0] := Some(a), Some(b), key;
    inner.nchildren := 2;
    UsedIs(inner.children[..], 2, [a, b]);
    cell := Cell.Over(inner, [a, b], below, Internal(inner.keys[..], [a.tree, b.tree]), h + 1);
  }

  /** The tree: a root node and the number of entries. */
  class HeapTree {
    var root: Cell
    var size: nat
    ghost var height: nat

    ghost predicate Valid()
      reads this, root, root.repr
    {
      && this !in root.repr && height > 0 && root.Valid(height) && ValidRoot(root.tree, height)
      && size == |Contents(root.tree)|
    }

    constructor ()
      ensures Valid() && Contents(root.tree) == map[] && fresh(root.repr)
    {
      hide Cell.Valid, Contents;
      var inner := new InternalNode<Cell>();
      var cell := Cell.Over(inner, [], {}, Internal(inner.keys[..], []), 1);
      root := cell;
      size, height := 0, 1;
      new;
      NoContents(root.tree);
    }

    method Get(key: Key) returns (r: Option<Value>)
      requires Valid()
      ensures r == if key in Contents(root.tree) then Some(Contents(root.tree)[key]) else None
    {
      hide Cell.Valid, BTrees.Valid, Contents;
      r := root.Get(key, height, 0, TOP);
      ContentsFind(root.tree, height, key);
    }

    /** Splits a full root under a new one, and gives an empty root its first leaf. */
    method Prepare(id: nat)
      requires this !in root.repr && height > 0 && root.Valid(height) && ValidRoot(root.tree, height)
      modifies this`root, this`height, root.repr
      ensures this !in root.repr && fresh(root.repr - old(root.repr)) && height == PreparedHeight(old(root.tree), old(height))
      ensures old(root.tree).Internal? && |old(root.tree).keys| == SLOTS && root.Valid(height)
      ensures root.tree == PreparedRoot(old(root.tree), id)
    {
      hide Cell.Valid, ValidRoot, LeftHalf, RightHalf, Full, ReprOf;
      RootShape(root.tree, height, id);
      var full := root.IsFull(height);
      var empty := root.IsEmpty(height);
      if full {
        var sibling, key := root.Halve(id, height);
        Pair(root, sibling);
        root := NewRoot(root, sibling, key, ReprOf([root, sibling]), height);
        height := height + 1;
      } else if empty {
        root.FirstLeaf(id, height);
      }
    }

    /** Insertion in place; a known key keeps its value, and its own slot is reported. */
    method Insert(key: Key, val: Value, id: nat) returns (inserted: bool, place: Place)
      requires Valid() && key < TOP
      modifies this, root.repr
      ensures Valid() && fresh(root.repr - old(root.repr))
      ensures var r := BTrees.Insert(old(root.tree), key, val, id, old(height));
              root.tree == r.tree && inserted == r.inserted && place == r.place
      ensures inserted <==> key !in old(Contents(root.tree))
      ensures Contents(root.tree) == if inserted then old(Contents(root.tree))[key := val] else old(Contents(root.tree))
      ensures Slot(root.tree, key) == Some(place)
    {
      hide Cell.Valid, BTrees.Valid, Contents, PreparedRoot, BTrees.InsertNode;
      InsertRefines(root.tree, key, val, id, height);
      PreparedValid(root.tree, height, id);
      Prepare(id);
      inserted, place := root.InsertNode(key, val, id, height, 0, TOP);
      if inserted { size := size + 1; }
    }
  }

  lemma RootShape(t: Tree, h: nat, id: nat)
    requires ValidRoot(t, h)
    ensures t.Internal? && |t.keys| == SLOTS && (t.children == [] ==> h == 1) && (Full(t) ==> t.children != [])
    ensures PreparedHeight(t, h) == if Full(t) then h + 1 else h
  {
    if t.children != [] { KeySlots(t, h, 0, TOP); }
  }

  lemma Pair(a: Cell, b: Cell)
    ensures ReprOf([a, b]) == a.repr + b.repr
  {
    assert [a, b][0] == a && [a, b][1] == b;
  }

  lemma NoContents(t: Tree)
    requires t.Internal? && t.children == []
    ensures Contents(t) == map[]
  {
  }
}
