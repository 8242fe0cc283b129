/** A run of insertions and removals from the empty tree that loses a key. */
module BTreeRuns {
  import opened Options
  import opened BTrees
  import opened BTreeRemove

  datatype Action = Put(key: Key, val: Value, id: nat) | Drop(key: Key)

  /** A tree and the number of its inner levels. */
  datatype State = State(tree: Tree, h: nat)

  const EMPTY: State := State(Internal(Zeros(SLOTS), []), 1)

  ghost predicate Acts(s: State, a: Action, s': State) {
    && ValidRoot(s.tree, s.h)
    && match a
       case Put(key, val, id) =>
         key < TOP && s' == State(Insert(s.tree, key, val, id, s.h).tree, PreparedHeight(s.tree, s.h))
       case Drop(key) =>
         && s.tree.children != [] && key in Contents(s.tree)
         && s' == State(Remove(s.tree, key, s.h).tree, RemainingHeight(RemoveNode(s.tree, key, s.h).tree, s.h))
  }

  ghost predicate IsRun(actions: seq<Action>, states: seq<State>) {
    && |states| == |actions| + 1 && states[0] == EMPTY
    && forall i, j :: 0 <= i < |actions| && j == i + 1 ==> Acts(states[i], actions[i], states[j])
  }

  lemma RunGrows(actions: seq<Action>, states: seq<State>, a: Action, s: State)
    requires IsRun(actions, states) && Acts(states[|actions|], a, s)
    ensures IsRun(actions + [a], states + [s])
  {
    hide Acts;
  }

  // ---- leaves and nodes that hold a range of keys

  /** The entries have the keys from `a` to `b`. */
  ghost predicate LeafRange(t: Tree, a: nat, b: nat) {
    && t.Leaf? && |t.keys| == SLOTS && a <= b && |t.vals| == b - a <= LEAF_MAX
    && forall i :: 0 <= i < b - a ==> t.keys[i] == a + i
  }

  ghost predicate Climbs(bs: seq<nat>) {
    forall i, j :: 0 <= i < j < |bs| ==> bs[i] < bs[j]
  }

  /** The leaves hold the ranges between neighbours of `bs`. */
  ghost predicate NodeRange(t: Tree, bs: seq<nat>) {
    && t.Internal? && |t.keys| == SLOTS && |bs| >= 2 && Climbs(bs) && |t.children| == |bs| - 1 <= INTERNAL_MAX
    && (forall i, j :: 0 <= i < |t.children| && j == i + 1 ==> LeafRange(t.children[i], bs[i], bs[j]))
    && (forall i, j :: 0 <= i < |t.children| - 1 && j == i + 1 ==> t.keys[i] == bs[j])
  }

  lemma LeafRangeValid(t: Tree, a: nat, b: nat)
    requires LeafRange(t, a, b) && a < b
    ensures Valid(t, 0, a, b) && Dense(t)
    ensures forall k: nat :: Find(t, k).Some? <==> a <= k < b
  {
    forall k: nat ensures Find(t, k).Some? <==> a <= k < b {
      PositionIs(t.keys, |t.vals|, k, if k < a then 0 else if k < b then k - a else b - a);
    }
  }

  lemma NodeRangeValid(t: Tree, bs: seq<nat>)
    requires NodeRange(t, bs)
    ensures Valid(t, 1, bs[0], bs[|bs| - 1]) && Dense(t)
  {
    var lo, hi := bs[0], bs[|bs| - 1];
    forall i: nat | i < |t.children|
      ensures Low(t, i, lo) == bs[i] && High(t, i, hi) == bs[i + 1] && Valid(t.children[i], 0, bs[i], bs[i + 1]) && Dense(t.children[i])
    {
      assert LeafRange(t.children[i], bs[i], bs[i + 1]);
      assert i > 0 ==> t.keys[i - 1] == bs[i];
      LeafRangeValid(t.children[i], bs[i], bs[i + 1]);
    }
    SeparatorsAre(t, bs);
    hide Valid;
    InternalValid(t, 1, lo, hi);
  }

  lemma SeparatorsAre(t: Tree, bs: seq<nat>)
    requires NodeRange(t, bs)
    ensures NotFalling(t.keys, |t.children| - 1)
    ensures forall i :: 0 <= i < |t.children| - 1 ==> bs[0] <= t.keys[i] == bs[i + 1] <= bs[|bs| - 1]
  {
    forall i: nat | i < |t.children| - 1 ensures t.keys[i] == bs[i + 1] { }
    forall i: nat, j: nat | i < j < |t.children| - 1 ensures t.keys[i] <= t.keys[j] {
      assert t.keys[i] == bs[i + 1] && t.keys[j] == bs[j + 1];
    }
  }

  lemma RouteInRange(t: Tree, bs: seq<nat>, k: nat, i: nat)
    requires NodeRange(t, bs) && i < |t.children| && bs[i] <= k && (i < |t.children| - 1 ==> k < bs[i + 1])
    ensures RouteOf(t, k) == i
  {
    SeparatorsAre(t, bs);
    forall j: nat | j < i ensures t.keys[j] <= k { assert t.keys[j] == bs[j + 1]; }
    RouteIs(t.keys, |t.children|, k, i);
  }

  // ---- ascending insertions

  lemma LeafAppend(t: Tree, a: nat, b: nat, val: Value)
    requires LeafRange(t, a, b) && b - a < LEAF_MAX
    ensures LeafRange(InsertInLeaf(t, b, val).tree, a, b + 1)
  {
    PositionIs(t.keys, |t.vals|, b, b - a);
  }

  lemma LeafHalves(t: Tree, a: nat, b: nat, id: nat)
    requires LeafRange(t, a, b) && b - a == LEAF_MAX
    ensures Full(t) && SplitKey(t) == a + 5
    ensures LeafRange(LeftHalf(t), a, a + 5) && LeafRange(RightHalf(t, id), a + 5, b)
  {
  }

  /** The bounds after the key at the end of the range has been inserted. */
  function Extended(bs: seq<nat>): seq<nat>
    requires |bs| >= 2
  {
    var n := |bs|;
    if bs[n - 1] - bs[n - 2] < LEAF_MAX then bs[..n - 1] + [bs[n - 1] + 1] else bs[..n - 1] + [bs[n - 2] + 5, bs[n - 1] + 1]
  }

  /** The descent of an insertion through a node above the leaves. */
  lemma Descend(t: Tree, key: Key, val: Value, id: nat, lo: nat, hi: nat, i: nat)
    requires Valid(t, 1, lo, hi) && t.Internal? && |t.children| < INTERNAL_MAX && lo <= key < hi && |t.keys| == SLOTS
    requires i < |t.children| && RouteOf(t, key) == i && t.children[i].Leaf? && |t.children[i].keys| == SLOTS
    ensures |t.children[i].vals| <= LEAF_MAX
    ensures !Full(t.children[i]) ==>
              InsertNode(t, key, val, id, 1, lo, hi).tree == t.(children := t.children[i := InsertInLeaf(t.children[i], key, val).tree])
    ensures Full(t.children[i]) && key >= SplitKey(t.children[i]) ==>
              var p := Parted(t, i, LeftHalf(t.children[i]), SplitKey(t.children[i]), RightHalf(t.children[i], id));
              && p.Internal? && i + 1 < |p.children| && RightHalf(t.children[i], id).Leaf? && |RightHalf(t.children[i], id).keys| == SLOTS
              && |RightHalf(t.children[i], id).vals| < LEAF_MAX
              && InsertNode(t, key, val, id, 1, lo, hi).tree
                 == p.(children := p.children[i + 1 := InsertInLeaf(RightHalf(t.children[i], id), key, val).tree])
  {
    hide Route, Position, Parted;
    var child := t.children[i];
    assert |child.vals| <= LEAF_MAX by { ChildValid(t, 1, lo, hi, i); }
    hide Valid;
    NextChildFits(t, 1, lo, hi, key, id);
    SplitChildValid(t, 1, lo, hi, i, id);
    ChildRange(SplitChild(t, i, id), 1, lo, hi, key);
    if Full(child) { PartedSlots(t, i, LeftHalf(child), SplitKey(child), RightHalf(child, id), SplitChild(t, i, id)); }
  }

  lemma AppendRange(t: Tree, bs: seq<nat>, val: Value, id: nat, lo: nat, hi: nat)
    requires NodeRange(t, bs) && |t.children| < INTERNAL_MAX && Valid(t, 1, lo, hi) && lo <= bs[|bs| - 1] < hi
    ensures NodeRange(InsertNode(t, bs[|bs| - 1], val, id, 1, lo, hi).tree, Extended(bs))
  {
    hide NodeRange, LeafRange, Valid, InsertNode, InsertInLeaf, LeftHalf, RightHalf, SplitKey, Parted, RouteOf, Full;
    LastLeaf(t, bs);
    var i, key := |bs| - 2, bs[|bs| - 1];
    var child := t.children[i];
    Descend(t, key, val, id, lo, hi, i);
    if key - bs[i] < LEAF_MAX {
      LeafAppend(child, bs[i], key, val);
      AppendedNode(t, bs, InsertInLeaf(child, key, val).tree);
    } else {
      LeafHalves(child, bs[i], key, id);
      LeafAppend(RightHalf(child, id), bs[i] + 5, key, val);
      SplitNode(t, bs, LeftHalf(child), RightHalf(child, id), InsertInLeaf(RightHalf(child, id), key, val).tree);
    }
  }

  lemma LastLeaf(t: Tree, bs: seq<nat>)
    requires NodeRange(t, bs)
    ensures |bs| >= 2 && t.Internal? && |t.keys| == SLOTS && |t.children| == |bs| - 1
    ensures RouteOf(t, bs[|bs| - 1]) == |bs| - 2
    ensures var leaf := t.children[|bs| - 2];
            && LeafRange(leaf, bs[|bs| - 2], bs[|bs| - 1]) && leaf.Leaf? && |leaf.keys| == SLOTS
            && bs[|bs| - 1] - bs[|bs| - 2] <= LEAF_MAX && (Full(leaf) <==> bs[|bs| - 1] - bs[|bs| - 2] == LEAF_MAX)
  {
    RouteInRange(t, bs, bs[|bs| - 1], |bs| - 2);
  }

  lemma AppendedNode(t: Tree, bs: seq<nat>, leaf: Tree)
    requires NodeRange(t, bs) && LeafRange(leaf, bs[|bs| - 2], bs[|bs| - 1] + 1)
    ensures NodeRange(t.(children := t.children[|bs| - 2 := leaf]), bs[..|bs| - 1] + [bs[|bs| - 1] + 1])
  {
  }

  lemma SplitNode(t: Tree, bs: seq<nat>, left: Tree, right: Tree, leaf: Tree)
    requires NodeRange(t, bs) && |t.children| < INTERNAL_MAX && bs[|bs| - 1] == bs[|bs| - 2] + LEAF_MAX
    requires LeafRange(left, bs[|bs| - 2], bs[|bs| - 2] + 5) && LeafRange(leaf, bs[|bs| - 2] + 5, bs[|bs| - 1] + 1)
    ensures var p := Parted(t, |bs| - 2, left, bs[|bs| - 2] + 5, right);
            p.Internal? && |p.children| == |bs| &&
            NodeRange(p.(children := p.children[|bs| - 1 := leaf]), bs[..|bs| - 1] + [bs[|bs| - 2] + 5, bs[|bs| - 1] + 1])
  {
    var i := |bs| - 2;
    var p := Parted(t, i, left, bs[i] + 5, right);
    PartedSlots(t, i, left, bs[i] + 5, right, p);
  }

  /** The bounds after the keys below `n` have been inserted in ascending order. */
  function Grown(n: nat): (bs: seq<nat>)
    requires n > 0
    ensures |bs| >= 2
  {
    if n == 1 then [0, 1] else Extended(Grown(n - 1))
  }

  function Leaves(n: nat): nat { if n < 10 then 1 else n / 5 }

  /** All of the `l` leaves but the last one have 5 keys. */
  predicate Fives(bs: seq<nat>, l: nat, n: nat) {
    |bs| == l + 1 && bs[l] == n && forall i :: 0 <= i < l ==> bs[i] == 5 * i
  }

  lemma {:induction false} GrownIs(n: nat)
    requires n > 0
    ensures Fives(Grown(n), Leaves(n), n)
  {
    if n > 1 {
      GrownIs(n - 1);
      FivesGrow(Grown(n - 1), Leaves(n - 1), n - 1);
    }
  }

  lemma FivesGrow(bs: seq<nat>, l: nat, n: nat)
    requires l == Leaves(n) && l > 0 && Fives(bs, l, n)
    ensures Fives(Extended(bs), Leaves(n + 1), n + 1)
  {
    assert bs[l - 1] == 5 * (l - 1);
    assert Leaves(n + 1) == if n - bs[l - 1] < LEAF_MAX then l else l + 1;
  }

  lemma FirstInsert(val: Value, id: nat)
    ensures Acts(EMPTY, Put(0, val, id), State(Insert(EMPTY.tree, 0, val, id, 1).tree, 1))
    ensures NodeRange(Insert(EMPTY.tree, 0, val, id, 1).tree, Grown(1))
  {
    var leaf := Leaf(id, Zeros(SLOTS), []);
    var p := PreparedRoot(EMPTY.tree, id);
    PreparedValid(EMPTY.tree, 1, id);
    assert p == Internal(Zeros(SLOTS), [leaf]);
    RouteIs(p.keys, 1, 0, 0);
    assert LeafRange(leaf, 0, 0);
    LeafAppend(leaf, 0, 0, val);
    var r := InsertInLeaf(leaf, 0, val).tree;
    assert InsertNode(p, 0, val, id, 1, 0, TOP).tree == Internal(Zeros(SLOTS), [r]);
  }

  lemma RootValid(t: Tree, bs: seq<nat>)
    requires NodeRange(t, bs) && bs[|bs| - 1] <= TOP
    ensures ValidRoot(t, 1) && Valid(t, 1, 0, TOP)
  {
    NodeRangeValid(t, bs);
    Widen(t, 1, bs[0], bs[|bs| - 1], 0, TOP);
  }

  /** Inserting the keys below `n` in ascending order, while one inner node holds all leaves. */
  lemma {:induction false} GrowRun(n: nat) returns (actions: seq<Action>, states: seq<State>)
    requires 0 < n <= 50
    ensures IsRun(actions, states) && states[|actions|].h == 1 && NodeRange(states[|actions|].tree, Grown(n))
  {
    if n == 1 {
      actions, states := [Put(0, 0, 0)], [EMPTY, State(Insert(EMPTY.tree, 0, 0, 0, 1).tree, 1)];
      FirstInsert(0, 0);
    } else {
      actions, states := GrowRun(n - 1);
      var s := GrowStep(states[|actions|], n);
      hide IsRun, Acts, NodeRange;
      RunGrows(actions, states, Put(n - 1, 0, n), s);
      actions, states := actions + [Put(n - 1, 0, n)], states + [s];
    }
  }

  lemma GrowStep(s: State, n: nat) returns (s': State)
    requires 1 < n <= 50 && s.h == 1 && NodeRange(s.tree, Grown(n - 1))
    ensures Acts(s, Put(n - 1, 0, n), s') && s'.h == 1 && NodeRange(s'.tree, Grown(n))
  {
    GrownIs(n - 1);
    RootValid(s.tree, Grown(n - 1));
    assert |s.tree.children| < INTERNAL_MAX;
    hide NodeRange, ValidRoot, Valid;
    AppendRange(s.tree, Grown(n - 1), 0, n, 0, TOP);
    assert PreparedRoot(s.tree, n) == s.tree;
    s' := State(Insert(s.tree, n - 1, 0, n, 1).tree, 1);
  }

  // ---- two inner nodes

  const LEFT: seq<nat> := [0, 5, 10, 15, 20, 25]

  /** A root over two nodes; the slot behind the last separator of the left one is 0, as a split leaves it. */
  ghost predicate TwoNodes(t: Tree, bs: seq<nat>) {
    && t.Internal? && |t.keys| == SLOTS && |t.children| == 2
    && NodeRange(t.children[0], LEFT) && NodeRange(t.children[1], bs)
    && t.keys[0] == bs[0] >= 25 && t.children[0].keys[4] == 0
  }

  lemma NodeFinds(t: Tree, bs: seq<nat>, k: nat, i: nat)
    requires NodeRange(t, bs) && i + 1 < |bs| && bs[i] <= k < bs[i + 1]
    ensures Find(t, k).Some?
  {
    RouteInRange(t, bs, k, i);
    assert LeafRange(t.children[i], bs[i], bs[i + 1]);
    LeafRangeValid(t.children[i], bs[i], bs[i + 1]);
    hide LeafRange;
    FindRouted(t, k);
  }

  lemma TwoNodesValid(t: Tree, bs: seq<nat>)
    requires TwoNodes(t, bs) && bs[|bs| - 1] <= TOP
    ensures ValidRoot(t, 2) && Valid(t, 2, 0, TOP) && Dense(t)
    ensures t.children[0].Internal? && Valid(t.children[0], 1, 0, bs[0]) && Valid(t.children[1], 1, bs[0], TOP)
  {
    var a, b := t.children[0], t.children[1];
    NodeRangeValid(a, LEFT);
    NodeRangeValid(b, bs);
    hide Valid, NodeRange;
    Widen(a, 1, 0, 25, 0, bs[0]);
    Widen(b, 1, bs[0], bs[|bs| - 1], bs[0], TOP);
    InternalValid(t, 2, 0, TOP);
  }

  lemma TwoNodesHold(t: Tree, bs: seq<nat>, k: nat)
    requires TwoNodes(t, bs) && bs[|bs| - 1] <= TOP && (k == 24 || k == bs[0])
    ensures ValidRoot(t, 2) && k in Contents(t)
  {
    var a, b := t.children[0], t.children[1];
    TwoNodesValid(t, bs);
    if k == 24 { NodeFinds(a, LEFT, 24, 4); } else { NodeFinds(b, bs, k, 0); }
    hide ValidRoot, Find, NodeRange;
    RouteIs(t.keys, 2, k, if k == 24 then 0 else 1);
    FindRouted(t, k);
    ContentsFind(t, 2, k);
  }

  /** The insertion that finds the root full. */
  lemma SplitRoot(t: Tree, bs: seq<nat>)
    requires NodeRange(t, bs) && Fives(bs, 10, 50)
    ensures ValidRoot(t, 1) && PreparedHeight(t, 1) == 2
    ensures TwoNodes(Insert(t, 50, 0, 51, 1).tree, Extended(bs[5..]))
  {
    RootValid(t, bs);
    var a, b := LeftHalf(t), RightHalf(t, 51);
    HalvesRange(t, bs);
    var p := PreparedRoot(t, 51);
    assert p == Internal([25] + Zeros(SLOTS - 1), [a, b]);
    PreparedValid(t, 1, 51);
    RouteIs(p.keys, 2, 50, 1);
    assert !Full(b) && bs[5..][|bs[5..]| - 1] == 50;
    ChildValid(p, 2, 0, TOP, 1);
    AppendRange(b, bs[5..], 0, 51, 25, TOP);
    SplitRootStep(p, b);
    assert Extended(bs[5..])[0] == 25;
  }

  lemma SplitRootStep(p: Tree, b: Tree)
    requires Valid(p, 2, 0, TOP) && p.Internal? && |p.children| == 2 && p.children[1] == b && |p.keys| == SLOTS
    requires p.keys[0] == 25 && RouteOf(p, 50) == 1 && b.Internal? && |b.keys| == SLOTS && !Full(b) && Valid(b, 1, 25, TOP)
    ensures InsertNode(p, 50, 0, 51, 2, 0, TOP).tree == p.(children := p.children[1 := InsertNode(b, 50, 0, 51, 1, 25, TOP).tree])
  {
    hide Valid, Route;
    NextChildFits(p, 2, 0, TOP, 50, 51);
    SplitChildValid(p, 2, 0, TOP, 1, 51);
    ChildRange(p, 2, 0, TOP, 50);
  }

  lemma HalvesRange(t: Tree, bs: seq<nat>)
    requires NodeRange(t, bs) && Fives(bs, 10, 50)
    ensures Full(t) && SplitKey(t) == 25 && NodeRange(LeftHalf(t), LEFT) && LeftHalf(t).keys[4] == 0
    ensures NodeRange(RightHalf(t, 51), bs[5..])
  {
    assert t.keys[4] == bs[5] == 25;
    assert forall i :: 0 <= i < 9 ==> t.keys[i] == bs[i + 1];
    assert bs[..6] == LEFT;
  }

  // ---- removing the first key of the right node again and again

  /** The bounds after the first key has been removed. */
  function Shrunk(bs: seq<nat>): seq<nat>
    requires |bs| >= 2
  {
    if |bs| > 2 && bs[2] - (bs[0] + 1) <= LEAF_MAX then [bs[0] + 1] + bs[2..] else [bs[0] + 1] + bs[1..]
  }

  lemma LeafDrop(t: Tree, a: nat, b: nat)
    requires LeafRange(t, a, b) && a + 1 < b
    ensures var r := RemoveFromLeaf(t, a);
            LeafRange(r.tree, a + 1, b) && r.minChanged && r.newMin == a + 1 && !Empty(r.tree)
  {
    PositionIs(t.keys, |t.vals|, a, 0);
  }

  lemma LeavesJoin(l: Tree, r: Tree, a: nat, b: nat, c: nat)
    requires LeafRange(l, a, b) && LeafRange(r, b, c)
    ensures Mergeable(l, r) <==> c - a <= LEAF_MAX
    ensures c - a <= LEAF_MAX ==> LeafRange(JoinLeaf(l, r), a, c)
  {
  }

  lemma FirstReplaced(t: Tree, bs: seq<nat>, leaf: Tree)
    requires NodeRange(t, bs) && bs[0] + 1 < bs[1] && LeafRange(leaf, bs[0] + 1, bs[1])
    ensures NodeRange(t.(children := t.children[0 := leaf]), [bs[0] + 1] + bs[1..])
  {
  }

  lemma FirstTwoJoined(t: Tree, bs: seq<nat>, leaf: Tree)
    requires NodeRange(t, bs) && |bs| > 2 && LeafRange(leaf, bs[0], bs[2])
    ensures NodeRange(RemoveShift(t.(children := t.children[0 := leaf]), 1), [bs[0]] + bs[2..])
  {
    var s, cs := RemoveShift(t.(children := t.children[0 := leaf]), 1), [bs[0]] + bs[2..];
    forall i, j | 0 <= i < |s.children| && j == i + 1 ensures LeafRange(s.children[i], cs[i], cs[j]) {
      if i > 0 { assert LeafRange(t.children[i + 1], bs[i + 1], bs[i + 2]); }
    }
    forall i, j | 0 <= i < |s.children| - 1 && j == i + 1 ensures s.keys[i] == cs[j] {
      assert t.keys[i + 1] == bs[i + 2];
    }
  }

  lemma DropFirst(t: Tree, bs: seq<nat>)
    requires NodeRange(t, bs) && bs[0] + 1 < bs[1] && Shaped(t, 1)
    ensures var r := RemoveNode(t, bs[0], 1);
            NodeRange(r.tree, Shrunk(bs)) && r.minChanged && r.newMin == bs[0] + 1 && !Empty(r.tree)
  {
    RouteInRange(t, bs, bs[0], 0);
    var leaf := t.children[0];
    assert LeafRange(leaf, bs[0], bs[1]);
    LeafDrop(leaf, bs[0], bs[1]);
    var r0 := RemoveNode(leaf, bs[0], 0);
    FirstReplaced(t, bs, r0.tree);
    var cs, k := [bs[0] + 1] + bs[1..], Kept(t, 0, r0);
    assert k == t.(children := t.children[0 := r0.tree]);
    if |bs| > 2 {
      assert LeafRange(k.children[0], cs[0], cs[1]) && LeafRange(k.children[1], cs[1], cs[2]);
      LeavesJoin(k.children[0], k.children[1], cs[0], cs[1], cs[2]);
      if cs[2] - cs[0] <= LEAF_MAX {
        FirstTwoJoined(k, cs, JoinLeaf(k.children[0], k.children[1]));
        assert [cs[0]] + cs[2..] == Shrunk(bs);
      }
    }
  }

  lemma SecondRepaired(t: Tree, r: RemoveResult)
    requires t.Internal? && |t.keys| == SLOTS && |t.children| == 2 && r.minChanged && !Empty(r.tree)
    ensures Repair(t, 1, r).tree == Internal(t.keys[0 := r.newMin], t.children[1 := r.tree])
  {
  }

  lemma RootDrop(t: Tree, bs: seq<nat>)
    requires |bs| >= 2 && TwoNodes(t, bs) && bs[0] + 1 < bs[1] && Shaped(t, 2)
    ensures var r := RemoveNode(t, bs[0], 2).tree;
            TwoNodes(r, Shrunk(bs)) && Collapsed(r) == r && !Empty(r)
  {
    hide NodeRange, Shrunk, Repair, Route;
    RouteIs(t.keys, 2, bs[0], 1);
    RightDrop(t.children[1], bs);
    var r1 := RemoveNode(t.children[1], bs[0], 1);
    RemoveNodeStep(t, bs[0], 2);
    SecondRepaired(t, r1);
    FirstShrunk(bs);
    hide RemoveNode;
  }

  lemma RightDrop(t: Tree, bs: seq<nat>)
    requires NodeRange(t, bs) && |bs| >= 2 && bs[0] + 1 < bs[1] && Shaped(t, 1)
    ensures var r := RemoveNode(t, bs[0], 1);
            t.Internal? && r.tree.Internal? && NodeRange(r.tree, Shrunk(bs)) && r.minChanged && r.newMin == bs[0] + 1 && !Empty(r.tree)
  {
    DropFirst(t, bs);
  }

  lemma FirstShrunk(bs: seq<nat>)
    requires |bs| >= 2
    ensures |Shrunk(bs)| >= 1 && Shrunk(bs)[0] == bs[0] + 1
  {
  }

  /** Removing the first key of the right node leaves the left one alone. */
  lemma DropSecond(t: Tree, bs: seq<nat>)
    requires TwoNodes(t, bs) && bs[0] + 1 < bs[1] && bs[|bs| - 1] <= TOP
    ensures ValidRoot(t, 2) && bs[0] in Contents(t)
    ensures Acts(State(t, 2), Drop(bs[0]), State(Remove(t, bs[0], 2).tree, 2)) && TwoNodes(Remove(t, bs[0], 2).tree, Shrunk(bs))
  {
    TwoNodesValid(t, bs);
    TwoNodesHold(t, bs, bs[0]);
    hide ValidRoot, Contents, Valid, TwoNodes, Shrunk, RemoveNode, Collapsed;
    RootShaped(t, 2);
    RootDrop(t, bs);
  }

  predicate Narrow(bs: seq<nat>, i: nat) {
    i + 1 < |bs| ==> bs[i + 1] - bs[i] < LEAF_MAX
  }

  /** The first leaf cannot run empty before its right sibling fits in. */
  ghost predicate Shrinkable(bs: seq<nat>) {
    && |bs| >= 2 && Climbs(bs) && bs[|bs| - 1] == 51
    && (|bs| > 2 ==> bs[2] - bs[0] > LEAF_MAX)
    && forall i: nat {:trigger Narrow(bs, i)} :: 1 <= i ==> Narrow(bs, i)
  }

  lemma ClimbsOn(bs: seq<nat>, first: nat, k: nat)
    requires Climbs(bs) && 0 < k < |bs| && first < bs[k]
    ensures Climbs([first] + bs[k..])
  {
    var cs := [first] + bs[k..];
    forall i, j | 0 <= i < j < |cs| ensures cs[i] < cs[j] {
      assert cs[j] == bs[j - 1 + k] && bs[k] <= bs[j - 1 + k];
      if i > 0 { assert cs[i] == bs[i - 1 + k]; }
    }
  }

  lemma ShrunkShrinkable(bs: seq<nat>)
    requires Shrinkable(bs) && |bs| > 2
    ensures bs[0] + 1 < bs[1] && Shrinkable(Shrunk(bs)) && Shrunk(bs)[0] == bs[0] + 1
  {
    assert Narrow(bs, 1) && bs[1] < bs[2];
    var k := if bs[2] - (bs[0] + 1) <= LEAF_MAX then 2 else 1;
    var cs := Shrunk(bs);
    assert cs == [bs[0] + 1] + bs[k..];
    ClimbsOn(bs, bs[0] + 1, k);
    if |cs| > 2 { assert cs[2] == bs[k + 1] && bs[2] <= bs[k + 1]; }
    if |cs| > 2 && k == 2 { assert bs[2] < bs[3]; }
    hide Climbs;
    forall i: nat {:trigger Narrow(cs, i)} | 1 <= i ensures Narrow(cs, i) {
      assert Narrow(bs, i - 1 + k);
      if i + 1 < |cs| { assert cs[i] == bs[i - 1 + k] && cs[i + 1] == bs[i + k]; }
    }
  }

  /** Until the right node has a single leaf. */
  lemma {:induction false} ShrinkRun(actions: seq<Action>, states: seq<State>, bs: seq<nat>)
    returns (more: seq<Action>, then': seq<State>, cs: seq<nat>)
    requires IsRun(actions, states) && states[|actions|].h == 2 && TwoNodes(states[|actions|].tree, bs) && Shrinkable(bs)
    ensures IsRun(more, then') && then'[|more|].h == 2 && TwoNodes(then'[|more|].tree, cs) && |cs| == 2 && cs[1] == 51
    decreases 51 - bs[0]
  {
    hide IsRun, Acts, TwoNodes, Shrinkable, Shrunk, Climbs;
    RunSize(actions, states);
    ShrinkableBounds(bs);
    if |bs| == 2 {
      more, then', cs := actions, states, bs;
    } else {
      var t := states[|actions|].tree;
      ShrunkShrinkable(bs);
      DropSecond(t, bs);
      var s := State(Remove(t, bs[0], 2).tree, 2);
      RunGrows(actions, states, Drop(bs[0]), s);
      more, then', cs := ShrinkRun(actions + [Drop(bs[0])], states + [s], Shrunk(bs));
    }
  }

  lemma RunSize(actions: seq<Action>, states: seq<State>)
    requires IsRun(actions, states)
    ensures |states| == |actions| + 1
  {
  }

  lemma ShrinkableBounds(bs: seq<nat>)
    requires Shrinkable(bs)
    ensures |bs| >= 2 && bs[|bs| - 1] == 51 && bs[0] < bs[1] <= 51
  {
  }

  // ---- the removal that loses a key

  /** Removing key 24 changes the last leaf of the left node and nothing else there. */
  lemma LeftDrop(a: Tree)
    requires NodeRange(a, LEFT) && Shaped(a, 1) && a.keys[4] == 0
    ensures var r := RemoveNode(a, 24, 1);
            r.tree.Internal? && |r.tree.keys| == SLOTS && |r.tree.children| == 5 && r.tree.keys[4] == 0 && !r.minChanged && 20 in Keys(r.tree)
  {
    RouteInRange(a, LEFT, 24, 4);
    LastLeaf(a, LEFT);
    var leaf := a.children[4];
    PositionIs(leaf.keys, |leaf.vals|, 24, 4);
    var r0 := RemoveNode(leaf, 24, 0);
    assert r0 == RemoveFromLeaf(leaf, 24) && r0.tree == RemoveShiftLeaf(leaf, 4);
    assert r0.tree.keys[0] == 20 && |r0.tree.vals| == 4;
    var r := RemoveNode(a, 24, 1);
    assert r == Repair(a, 4, r0);
    assert r.tree == Internal(a.keys, a.children[4 := r0.tree]);
    assert 20 in Keys(r.tree.children[4]);
  }

  lemma LastDrop(t: Tree, bs: seq<nat>)
    requires TwoNodes(t, bs) && |bs| == 2 && bs[1] == 51
    ensures ValidRoot(t, 2) && Shaped(t, 2) && !MergesPart(t, 24, 2)
  {
    TwoNodesValid(t, bs);
    RouteIs(t.keys, 2, 24, 0);
    LeftDrop(t.children[0]);
    hide Valid, NodeRange, RemoveNode;
    RootShaped(t, 2);
    var r := RemoveNode(t.children[0], 24, 1);
    var k := Kept(t, 0, r);
    assert k == Internal(t.keys, t.children[0 := r.tree]);
    assert LoneSibling(k, 0);
    assert !SlotParts(k, 0);
  }

  lemma RightShrinkable(bs: seq<nat>)
    requires Fives(bs, 10, 50)
    ensures Shrinkable(Extended(bs[5..]))
  {
    assert bs[5..] == [25, 30, 35, 40, 45, 50];
    assert Extended(bs[5..]) == [25, 30, 35, 40, 45, 51];
  }

  /** The keys below 51 are inserted in ascending order, which splits the root. */
  lemma SplitRun() returns (actions: seq<Action>, states: seq<State>, bs: seq<nat>)
    ensures IsRun(actions, states) && states[|actions|].h == 2 && TwoNodes(states[|actions|].tree, bs) && Shrinkable(bs)
  {
    actions, states := GrowRun(50);
    GrownIs(50);
    hide IsRun, NodeRange, Fives, Shrinkable, ValidRoot, TwoNodes;
    var t := states[|actions|].tree;
    SplitRoot(t, Grown(50));
    bs := Extended(Grown(50)[5..]);
    RightShrinkable(Grown(50));
    var s := State(Insert(t, 50, 0, 51, 1).tree, 2);
    RunGrows(actions, states, Put(50, 0, 51), s);
    actions, states := actions + [Put(50, 0, 51)], states + [s];
  }

  /**
   * After ascending insertions that split the root, the right inner node is emptied from below until it has a single
   * leaf. Removing key 24 after that makes another key unreachable.
   */
  lemma LosingRun() returns (actions: seq<Action>, states: seq<State>, lost: Key)
    ensures IsRun(actions, states) && |actions| > 0 && actions[|actions| - 1] == Drop(24) && lost != 24
    ensures lost in Contents(states[|actions| - 1].tree) && lost !in Contents(states[|actions|].tree)
  {
    hide Acts, TwoNodes, Shrinkable, ValidRoot, Contents;
    var bs;
    actions, states, bs := SplitRun();
    actions, states, bs := ShrinkRun(actions, states, bs);
    lost := FinalDrop(actions, states, bs);
    var s := states[|actions|];
    var last := State(Remove(s.tree, 24, 2).tree, RemainingHeight(RemoveNode(s.tree, 24, 2).tree, 2));
    RunGrows(actions, states, Drop(24), last);
    actions, states := actions + [Drop(24)], states + [last];
  }

  lemma FinalDrop(actions: seq<Action>, states: seq<State>, bs: seq<nat>) returns (lost: Key)
    requires IsRun(actions, states) && states[|actions|].h == 2 && TwoNodes(states[|actions|].tree, bs) && |bs| == 2 && bs[1] == 51
    ensures |states| == |actions| + 1
    ensures var t := states[|actions|].tree;
      && ValidRoot(t, 2) && Shaped(t, 2) && t.children != [] && lost != 24 && lost in Contents(t) && lost !in Contents(Remove(t, 24, 2).tree)
      && Acts(State(t, 2), Drop(24), State(Remove(t, 24, 2).tree, RemainingHeight(RemoveNode(t, 24, 2).tree, 2)))
  {
    var t := states[|actions|].tree;
    TwoNodesValid(t, bs);
    TwoNodesHold(t, bs, 24);
    LastDrop(t, bs);
    hide IsRun, TwoNodes, Valid, Find, Contents, RemoveNode, MergesPart;
    RootShaped(t, 2);
    lost := RemoveNodeLoses(t, 24, 2, 0, TOP);
    var r := RemoveNode(t, 24, 2);
    LostNotFound(r.tree, lost);
    CollapsedFind(r.tree, lost);
    ContentsFind(t, 2, lost);
    NotInContents(Collapsed(r.tree), lost);
  }

  lemma NotInContents(t: Tree, k: Key)
    requires Find(t, k) == None
    ensures k !in Contents(t)
  {
  }
}
