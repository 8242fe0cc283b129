/** The leaves of a B-tree in order: their entries, their chain, and how many entries an insert-only tree must hold. */
module BTreeLeaves {
  import opened Options
  import opened BTrees
  import opened BTreeRemove

  // ---- the leaves from left to right

  function Leaves(t: Tree): seq<Tree> {
    match t
    case Leaf(_, _, _) => [t]
    case Internal(_, children) => LeavesOf(children)
  }

  function LeavesOf(ts: seq<Tree>): seq<Tree> {
    if ts == [] then [] else Leaves(ts[0]) + LeavesOf(ts[1..])
  }

  lemma {:induction false} LeavesAppend(a: seq<Tree>, b: seq<Tree>)
    ensures LeavesOf(a + b) == LeavesOf(a) + LeavesOf(b)
  {
    if a == [] {
      assert a + b == b;
    } else {
      assert (a + b)[1..] == a[1..] + b;
      LeavesAppend(a[1..], b);
    }
  }

  lemma LeavesOfOne(t: Tree)
    ensures LeavesOf([t]) == Leaves(t)
  {
    assert [t][1..] == [];
  }

  lemma LeavesThree(a: seq<Tree>, t: Tree, b: seq<Tree>)
    ensures LeavesOf(a + [t] + b) == LeavesOf(a) + Leaves(t) + LeavesOf(b)
  {
    hide LeavesOf, Leaves;
    LeavesAppend(a, [t]);
    LeavesAppend(a + [t], b);
    LeavesOfOne(t);
  }

  lemma LeavesAt(ts: seq<Tree>, i: nat)
    requires i < |ts|
    ensures LeavesOf(ts) == LeavesOf(ts[..i]) + Leaves(ts[i]) + LeavesOf(ts[i + 1..])
  {
    hide LeavesOf, Leaves;
    Cut(ts, i);
    LeavesThree(ts[..i], ts[i], ts[i + 1..]);
  }

  lemma Cut(ts: seq<Tree>, i: nat)
    requires i < |ts|
    ensures ts == ts[..i] + [ts[i]] + ts[i + 1..]
  {
  }

  lemma {:induction false} LeavesAreLeaves(t: Tree, h: nat)
    requires Shaped(t, h)
    ensures forall l :: l in Leaves(t) ==> l.Leaf? && Shaped(l, 0)
    decreases h, 0
  {
    if t.Internal? { LeavesOfAreLeaves(t.children, h - 1); }
  }

  lemma {:induction false} LeavesOfAreLeaves(ts: seq<Tree>, h: nat)
    requires forall i :: 0 <= i < |ts| ==> Shaped(ts[i], h)
    ensures forall l :: l in LeavesOf(ts) ==> l.Leaf? && Shaped(l, 0)
    decreases h, 1 + |ts|
  {
    if ts != [] {
      LeavesAreLeaves(ts[0], h);
      LeavesOfAreLeaves(ts[1..], h);
    }
  }

  function LeafId(t: Tree): nat { if t.Leaf? then t.id else 0 }

  function Ids(leaves: seq<Tree>): (ids: seq<nat>)
    ensures |ids| == |leaves| && forall i :: 0 <= i < |ids| ==> ids[i] == LeafId(leaves[i])
  {
    seq(|leaves|, (i: nat) requires i < |leaves| => LeafId(leaves[i]))
  }

  lemma IdsAppend(a: seq<Tree>, b: seq<Tree>)
    ensures Ids(a + b) == Ids(a) + Ids(b)
  {
  }

  // ---- how an insertion changes the list of leaves

  /** `added` is put right after place `p`, which names leaf `at`. */
  ghost predicate AddedAfter(ids: seq<nat>, at: nat, added: nat, ids': seq<nat>, p: nat) {
    p < |ids| && ids[p] == at && ids' == ids[..p + 1] + [added] + ids[p + 1..]
  }

  ghost predicate IdsChanged(ids: seq<nat>, split: Option<nat>, added: nat, ids': seq<nat>) {
    if split.None? then ids' == ids else exists p: nat :: AddedAfter(ids, split.value, added, ids', p)
  }

  lemma IdsChangedInside(a: seq<nat>, ids: seq<nat>, b: seq<nat>, split: Option<nat>, added: nat, ids': seq<nat>)
    requires IdsChanged(ids, split, added, ids')
    ensures IdsChanged(a + ids + b, split, added, a + ids' + b)
  {
    if split.Some? {
      var p: nat :| AddedAfter(ids, split.value, added, ids', p);
      var all := a + ids + b;
      assert all[..|a| + p + 1] == a + ids[..p + 1] && all[|a| + p + 1..] == ids[p + 1..] + b;
      assert AddedAfter(all, split.value, added, a + ids' + b, |a| + p);
    }
  }

  lemma ReplaceIds(ts: seq<Tree>, i: nat, mid: seq<Tree>, split: Option<nat>, added: nat)
    requires i < |ts| && IdsChanged(Ids(Leaves(ts[i])), split, added, Ids(LeavesOf(mid)))
    ensures IdsChanged(Ids(LeavesOf(ts)), split, added, Ids(LeavesOf(ts[..i] + mid + ts[i + 1..])))
  {
    hide LeavesOf, Leaves, IdsChanged, Ids;
    var a, b := LeavesOf(ts[..i]), LeavesOf(ts[i + 1..]);
    LeavesAt(ts, i);
    LeavesAppend(ts[..i], mid);
    LeavesAppend(ts[..i] + mid, ts[i + 1..]);
    IdsAppend(a, Leaves(ts[i]));
    IdsAppend(a + Leaves(ts[i]), b);
    IdsAppend(a, LeavesOf(mid));
    IdsAppend(a + LeavesOf(mid), b);
    IdsChangedInside(Ids(a), Ids(Leaves(ts[i])), Ids(b), split, added, Ids(LeavesOf(mid)));
  }

  /** Splitting a leaf adds the new leaf behind it; splitting an internal node moves no leaf. */
  lemma HalvesIds(t: Tree, h: nat, id: nat)
    requires Shaped(t, h) && Full(t) && |t.keys| == SLOTS
    ensures IdsChanged(Ids(Leaves(t)), if t.Leaf? then Some(t.id) else None, id, Ids(LeavesOf([LeftHalf(t), RightHalf(t, id)])))
  {
    var l, r := LeftHalf(t), RightHalf(t, id);
    LeavesAppend([l], [r]);
    LeavesOfOne(l);
    LeavesOfOne(r);
    assert [l] + [r] == [l, r];
    if t.Leaf? {
      assert LeavesOf([l, r]) == [l, r];
      assert AddedAfter(Ids([t]), t.id, id, Ids([l, r]), 0);
    } else {
      LeavesAppend(t.children[..INTERNAL_MIN], t.children[INTERNAL_MIN..]);
      assert t.children[..INTERNAL_MIN] + t.children[INTERNAL_MIN..] == t.children;
    }
  }

  lemma SplitChildIds(t: Tree, h: nat, i: nat, id: nat)
    requires Shaped(t, h) && t.Internal? && |t.keys| == SLOTS && i < |t.children| < INTERNAL_MAX && |t.children[i].keys| == SLOTS
    ensures SplitChild(t, i, id).Internal?
    ensures IdsChanged(Ids(LeavesOf(t.children)), SplitOf(t, i), id, Ids(LeavesOf(SplitChild(t, i, id).children)))
  {
    hide LeavesOf, Leaves, LeftHalf, RightHalf, IdsChanged;
    var child := t.children[i];
    if Full(child) {
      HalvesIds(child, h - 1, id);
      ReplaceIds(t.children, i, [LeftHalf(child), RightHalf(child, id)], SplitOf(t, i), id);
      PartedList(t, i, LeftHalf(child), SplitKey(child), RightHalf(child, id));
    } else {
      NothingChanged(Ids(LeavesOf(t.children)), id);
    }
  }

  function SplitOf(t: Tree, i: nat): Option<nat>
    requires t.Internal? && i < |t.children|
  {
    if t.children[i].Leaf? && Full(t.children[i]) then Some(t.children[i].id) else None
  }

  lemma NothingChanged(ids: seq<nat>, added: nat)
    ensures IdsChanged(ids, None, added, ids)
  {
  }

  lemma PartedList(t: Tree, i: nat, left: Tree, sep: Key, right: Tree)
    requires t.Internal? && |t.keys| == SLOTS && i < |t.children| < INTERNAL_MAX
    ensures Parted(t, i, left, sep, right).Internal?
    ensures Parted(t, i, left, sep, right).children == t.children[..i] + [left, right] + t.children[i + 1..]
  {
  }

  lemma ChangedOnce(ids: seq<nat>, first: Option<nat>, ids1: seq<nat>, second: Option<nat>, ids2: seq<nat>, added: nat)
    requires IdsChanged(ids, first, added, ids1) && IdsChanged(ids1, second, added, ids2) && (first.None? || second.None?)
    ensures IdsChanged(ids, if first.Some? then first else second, added, ids2)
  {
  }

  lemma {:induction false} InsertNodeIds(t: Tree, key: Key, val: Value, id: nat, h: nat, lo: nat, hi: nat)
    requires Valid(t, h, lo, hi) && lo <= key < hi && !Full(t)
    ensures IdsChanged(Ids(Leaves(t)), InsertNode(t, key, val, id, h, lo, hi).split, id, Ids(Leaves(InsertNode(t, key, val, id, h, lo, hi).tree)))
    ensures t.Leaf? ==> InsertNode(t, key, val, id, h, lo, hi).split == None
    decreases h
  {
    KeySlots(t, h, lo, hi);
    if t.Leaf? {
      NothingChanged(Ids(Leaves(t)), id);
    } else {
      hide Valid, Find, SplitChild, NextChild, Full, IdsChanged, LeavesOf;
      var i := RouteOf(t, key);
      NextChildFits(t, h, lo, hi, key, id);
      SplitChildValid(t, h, lo, hi, i, id);
      ValidShaped(t, h, lo, hi);
      SplitChildIds(t, h, i, id);
      var t1, j := SplitChild(t, i, id), NextChild(t, i, key);
      ChildRange(t1, h, lo, hi, key);
      InsertNodeIds(t1.children[j], key, val, id, h - 1, Low(t1, j, lo), High(t1, j, hi));
      var r := InsertNode(t1.children[j], key, val, id, h - 1, Low(t1, j, lo), High(t1, j, hi));
      OneChildIds(t1, j, r, id);
      SameLevel(t, t1, h, lo, hi, i, j);
      ChangedOnce(Ids(LeavesOf(t.children)), SplitOf(t, i), Ids(LeavesOf(t1.children)), r.split,
                  Ids(LeavesOf(t1.children[j := r.tree])), id);
    }
  }

  lemma ValidShaped(t: Tree, h: nat, lo: nat, hi: nat)
    requires Valid(t, h, lo, hi)
    ensures Shaped(t, h)
  {
  }

  lemma SameLevel(t: Tree, t1: Tree, h: nat, lo: nat, hi: nat, i: nat, j: nat)
    requires Valid(t, h, lo, hi) && Valid(t1, h, lo, hi) && t.Internal? && t1.Internal? && i < |t.children| && j < |t1.children|
    ensures t.children[i].Leaf? <==> t1.children[j].Leaf?
  {
    ChildShaped(t, h, lo, hi, i);
    ChildShaped(t1, h, lo, hi, j);
  }

  lemma OneChildIds(t: Tree, j: nat, r: InsertResult, id: nat)
    requires t.Internal? && j < |t.children| && IdsChanged(Ids(Leaves(t.children[j])), r.split, id, Ids(Leaves(r.tree)))
    ensures IdsChanged(Ids(LeavesOf(t.children)), r.split, id, Ids(LeavesOf(t.children[j := r.tree])))
  {
    hide IdsChanged, Leaves, LeavesOf;
    LeavesOfOne(r.tree);
    ReplaceIds(t.children, j, [r.tree], r.split, id);
    assert t.children[..j] + [r.tree] + t.children[j + 1..] == t.children[j := r.tree];
  }

  // ---- the chain

  /** `next` links the leaves in list order and ends at the last one. */
  ghost predicate Chain(next: map<nat, Option<nat>>, ids: seq<nat>) {
    && (forall i, j :: 0 <= i < j < |ids| ==> ids[i] != ids[j])
    && (forall i :: 0 <= i < |ids| ==> ids[i] in next)
    && (forall i, j :: 0 <= i < |ids| && 0 <= j < |ids| && j == i + 1 ==> next[ids[i]] == Some(ids[j]))
    && (ids != [] ==> next[ids[|ids| - 1]] == None)
  }

  /** The new leaf takes over the split leaf's link, and the split leaf links to it. */
  lemma ChainGrows(next: map<nat, Option<nat>>, ids: seq<nat>, at: nat, added: nat, ids': seq<nat>, p: nat)
    requires Chain(next, ids) && AddedAfter(ids, at, added, ids', p) && added !in ids
    ensures at in next && Chain(next[added := next[at]][at := Some(added)], ids')
  {
    var next' := next[added := next[at]][at := Some(added)];
    assert forall i :: 0 <= i < |ids'| ==> ids'[i] == if i <= p then ids[i] else if i == p + 1 then added else ids[i - 1];
    forall i, j | 0 <= i < |ids'| && 0 <= j < |ids'| && j == i + 1 ensures next'[ids'[i]] == Some(ids'[j]) {
      if i == p + 1 { assert next[ids[p]] == Some(ids[p + 1]); }
      if i > p + 1 { assert next[ids[i - 1]] == Some(ids[j - 1]); }
    }
  }

  function LinkNew(next: map<nat, Option<nat>>, root: Tree, split: Option<nat>, id: nat): map<nat, Option<nat>> {
    if root.Internal? && root.children == [] then next[id := None]
    else if split.Some? && split.value in next then next[id := next[split.value]][split.value := Some(id)]
    else next
  }

  lemma PreparedIds(root: Tree, h: nat, id: nat)
    requires ValidRoot(root, h) && root.Internal? && |root.keys| == SLOTS
    ensures Ids(Leaves(PreparedRoot(root, id))) == if root.children == [] then [id] else Ids(Leaves(root))
  {
    if root.children == [] {
      LeavesOfOne(Leaf(id, Zeros(SLOTS), []));
    } else if Full(root) {
      HalvesIds(root, h, id);
    }
  }

  /** The chain goes through the leaves in order after every insertion. */
  lemma InsertKeepsChain(root: Tree, key: Key, val: Value, id: nat, h: nat, next: map<nat, Option<nat>>)
    requires ValidRoot(root, h) && key < TOP && Chain(next, Ids(Leaves(root))) && id !in Ids(Leaves(root))
    ensures Chain(LinkNew(next, root, Insert(root, key, val, id, h).split, id), Ids(Leaves(Insert(root, key, val, id, h).tree)))
    ensures forall i :: i in Ids(Leaves(Insert(root, key, val, id, h).tree)) ==> i == id || i in Ids(Leaves(root))
  {
    hide Valid, Find, Leaves, Chain, InsertNode, PreparedRoot;
    PreparedValid(root, h, id);
    PreparedIds(root, h, id);
    var p, h' := PreparedRoot(root, id), PreparedHeight(root, h);
    InsertNodeIds(p, key, val, id, h', 0, TOP);
    var r := Insert(root, key, val, id, h);
    var before, after := Ids(Leaves(root)), Ids(Leaves(r.tree));
    if root.children == [] {
      FirstLeaf(root, id, key, val, h);
      FirstChain(next, id);
    } else if r.split.Some? {
      var at: nat :| AddedAfter(before, r.split.value, id, after, at);
      ChainGrows(next, before, r.split.value, id, after, at);
    }
  }

  lemma FirstChain(next: map<nat, Option<nat>>, id: nat)
    ensures Chain(next[id := None], [id])
  {
  }

  /** The first insertion splits nothing. */
  lemma FirstLeaf(root: Tree, id: nat, key: Key, val: Value, h: nat)
    requires ValidRoot(root, h) && key < TOP && root.Internal? && root.children == []
    ensures Insert(root, key, val, id, h).split == None
  {
    PreparedValid(root, h, id);
    var p := PreparedRoot(root, id);
    assert p.children == [Leaf(id, Zeros(SLOTS), [])] && RouteOf(p, key) == 0;
    assert SplitChild(p, 0, id) == p && NextChild(p, 0, key) == 0;
  }

  // ---- entries in key order

  function LeafEntries(l: Tree): seq<(Key, Value)> {
    if l.Leaf? && |l.vals| <= |l.keys| then seq(|l.vals|, (i: nat) requires i < |l.vals| <= |l.keys| => (l.keys[i], l.vals[i])) else []
  }

  function Entries(leaves: seq<Tree>): seq<(Key, Value)> {
    if leaves == [] then [] else LeafEntries(leaves[0]) + Entries(leaves[1..])
  }

  lemma {:induction false} EntriesAppend(a: seq<Tree>, b: seq<Tree>)
    ensures Entries(a + b) == Entries(a) + Entries(b)
  {
    if a == [] {
      assert a + b == b;
    } else {
      assert (a + b)[1..] == a[1..] + b;
      EntriesAppend(a[1..], b);
    }
  }

  ghost predicate Ascending(es: seq<(Key, Value)>, lo: nat, hi: nat) {
    && (forall i, j :: 0 <= i < j < |es| ==> es[i].0 < es[j].0)
    && (forall i :: 0 <= i < |es| ==> lo <= es[i].0 < hi)
  }

  lemma {:induction false} EntriesAscend(t: Tree, h: nat, lo: nat, hi: nat)
    requires Valid(t, h, lo, hi)
    ensures Ascending(Entries(Leaves(t)), lo, hi)
    decreases h, 0
  {
    KeySlots(t, h, lo, hi);
    if t.Leaf? {
      assert Entries([t]) == LeafEntries(t);
    } else {
      ChildrenAscend(t, h, lo, hi, 0);
      assert t.children[0..] == t.children;
    }
  }

  lemma {:induction false} ChildrenAscend(t: Tree, h: nat, lo: nat, hi: nat, i: nat)
    requires Valid(t, h, lo, hi) && h > 0 && t.Internal? && |t.keys| == SLOTS && i < |t.children| <= INTERNAL_MAX
    ensures Ascending(Entries(LeavesOf(t.children[i..])), Low(t, i, lo), hi)
    decreases h - 1, 1 + |t.children| - i
  {
    hide Valid, Leaves, Entries;
    ChildValid(t, h, lo, hi, i);
    ReplaceSeparators(t, h, lo, hi);
    EntriesAscend(t.children[i], h - 1, Low(t, i, lo), High(t, i, hi));
    var rest := t.children[i..];
    assert rest[0] == t.children[i] && rest[1..] == t.children[i + 1..];
    EntriesAppend(Leaves(rest[0]), LeavesOf(rest[1..]));
    if i + 1 < |t.children| {
      ChildrenAscend(t, h, lo, hi, i + 1);
    } else {
      NoEntries(rest[1..]);
    }
  }

  lemma NoEntries(ts: seq<Tree>)
    requires ts == []
    ensures Entries(LeavesOf(ts)) == []
  {
  }

  /** The entries of the leaves are exactly what the search finds. */
  lemma {:induction false} EntriesExact(t: Tree, h: nat, lo: nat, hi: nat, k: Key, v: Value)
    requires Valid(t, h, lo, hi)
    ensures (k, v) in Entries(Leaves(t)) <==> Find(t, k) == Some(v)
    decreases h, 0
  {
    KeySlots(t, h, lo, hi);
    if t.Leaf? {
      assert Entries([t]) == LeafEntries(t);
      LeafEntriesExact(t, k, v);
    } else {
      InternalFind(t, h, lo, hi, k, v);
      ChildrenExact(t, h, lo, hi, 0, k, v);
      assert t.children[0..] == t.children;
    }
  }

  lemma LeafEntriesExact(t: Tree, k: Key, v: Value)
    requires t.Leaf? && |t.keys| == SLOTS && |t.vals| <= LEAF_MAX && Rising(t.keys, |t.vals|)
    ensures (k, v) in LeafEntries(t) <==> Find(t, k) == Some(v)
  {
    hide Find;
    if Find(t, k) == Some(v) {
      var i := FoundInLeaf(t, k);
      assert LeafEntries(t)[i] == (k, v);
    }
    if (k, v) in LeafEntries(t) {
      var i :| 0 <= i < |t.vals| && LeafEntries(t)[i] == (k, v);
      LeafFind(t, k, i);
    }
  }

  lemma {:induction false} ChildrenExact(t: Tree, h: nat, lo: nat, hi: nat, i: nat, k: Key, v: Value)
    requires Valid(t, h, lo, hi) && h > 0 && t.Internal? && i < |t.children|
    ensures (k, v) in Entries(LeavesOf(t.children[i..])) <==> exists j :: i <= j < |t.children| && Find(t.children[j], k) == Some(v)
    decreases h - 1, 1 + |t.children| - i
  {
    hide Valid, Leaves, Entries, Find;
    KeySlots(t, h, lo, hi);
    ChildValid(t, h, lo, hi, i);
    EntriesExact(t.children[i], h - 1, Low(t, i, lo), High(t, i, hi), k, v);
    var rest := t.children[i..];
    assert rest[0] == t.children[i] && rest[1..] == t.children[i + 1..];
    EntriesAppend(Leaves(rest[0]), LeavesOf(rest[1..]));
    if i + 1 < |t.children| {
      ChildrenExact(t, h, lo, hi, i + 1, k, v);
    } else {
      NoEntries(rest[1..]);
    }
  }

  // ---- how full the nodes of an insert-only tree are

  /** A node below the root: as full as a split leaves it. */
  predicate Filled(t: Tree) {
    match t
    case Leaf(_, _, vals) => |vals| >= LEAF_MAX - LEAF_MIN
    case Internal(_, children) => |children| >= INTERNAL_MIN && forall i :: 0 <= i < |children| ==> Filled(children[i])
  }

  /** The root: a single leaf may hold anything, otherwise there are at least two filled children. */
  predicate FilledRoot(t: Tree, h: nat) {
    t.Internal? && (h > 1 ==> |t.children| >= 2) && (|t.children| >= 2 ==> forall i :: 0 <= i < |t.children| ==> Filled(t.children[i]))
  }

  lemma HalvesFilled(t: Tree, id: nat)
    requires |t.keys| == SLOTS && Full(t) && (t.Internal? ==> Filled(t))
    ensures Filled(LeftHalf(t)) && Filled(RightHalf(t, id))
  {
  }

  ghost predicate AllFilled(ts: seq<Tree>) {
    forall i :: 0 <= i < |ts| ==> Filled(ts[i])
  }

  lemma SplitChildFilled(t: Tree, i: nat, id: nat)
    requires t.Internal? && |t.keys| == SLOTS && i < |t.children| < INTERNAL_MAX && |t.children[i].keys| == SLOTS
    requires AllFilled(t.children) || (|t.children| == 1 && t.children[0].Leaf?)
    ensures var t1 := SplitChild(t, i, id);
      t1.Internal? && |t1.children| >= |t.children| && (AllFilled(t1.children) || (t1 == t && |t.children| == 1))
  {
    hide LeftHalf, RightHalf, Filled;
    var child := t.children[i];
    if Full(child) {
      if child.Leaf? { FullIsFilled(child); }
      HalvesFilled(child, id);
      PartedList(t, i, LeftHalf(child), SplitKey(child), RightHalf(child, id));
    }
  }

  lemma FullIsFilled(t: Tree)
    requires t.Leaf? && Full(t)
    ensures Filled(t)
  {
  }

  lemma InsertLeafFilled(t: Tree, key: Key, val: Value)
    requires t.Leaf? && |t.keys| == SLOTS && |t.vals| < LEAF_MAX && Filled(t)
    ensures Filled(InsertInLeaf(t, key, val).tree)
  {
    hide Position;
  }

  lemma FilledWithChild(t: Tree, j: nat, child: Tree)
    requires t.Internal? && |t.children| >= INTERNAL_MIN && AllFilled(t.children) && j < |t.children| && Filled(child)
    ensures Filled(t.(children := t.children[j := child]))
  {
  }

  lemma FilledChildren(t: Tree)
    requires t.Internal? && Filled(t)
    ensures AllFilled(t.children) && |t.children| >= INTERNAL_MIN
  {
  }

  lemma {:induction false} InsertNodeFilled(t: Tree, key: Key, val: Value, id: nat, h: nat, lo: nat, hi: nat)
    requires Valid(t, h, lo, hi) && lo <= key < hi && !Full(t) && Filled(t)
    ensures Filled(InsertNode(t, key, val, id, h, lo, hi).tree)
    decreases h
  {
    hide Valid, Find, SplitChild, NextChild, Filled, InsertInLeaf, AllFilled, Rising, NotFalling;
    KeySlots(t, h, lo, hi);
    if t.Leaf? {
      InsertLeafFilled(t, key, val);
    } else {
      var i := RouteOf(t, key);
      FilledChildren(t);
      NextChildFits(t, h, lo, hi, key, id);
      SplitChildValid(t, h, lo, hi, i, id);
      SplitChildFilled(t, i, id);
      var t1, j := SplitChild(t, i, id), NextChild(t, i, key);
      ChildRange(t1, h, lo, hi, key);
      ChildFilled(t1, j);
      InsertNodeFilled(t1.children[j], key, val, id, h - 1, Low(t1, j, lo), High(t1, j, hi));
      var r := InsertNode(t1.children[j], key, val, id, h - 1, Low(t1, j, lo), High(t1, j, hi));
      FilledWithChild(t1, j, r.tree);
    }
  }

  lemma ChildFilled(t: Tree, j: nat)
    requires t.Internal? && AllFilled(t.children) && j < |t.children|
    ensures Filled(t.children[j])
  {
  }

  lemma PreparedFilled(root: Tree, h: nat, id: nat)
    requires ValidRoot(root, h) && FilledRoot(root, h) && |root.keys| == SLOTS
    ensures var p := PreparedRoot(root, id);
      && p.Internal? && (PreparedHeight(root, h) > 1 ==> |p.children| >= 2)
      && (AllFilled(p.children) || (|p.children| == 1 && p.children[0].Leaf?))
  {
    if Full(root) && root.children != [] {
      HalvesFilled(root, id);
    } else if |root.children| == 1 {
      ChildShaped(root, h, 0, TOP, 0);
    }
  }

  /** Insertions keep every node below the root as full as a split leaves it. */
  lemma InsertKeepsFilled(root: Tree, key: Key, val: Value, id: nat, h: nat)
    requires ValidRoot(root, h) && FilledRoot(root, h) && key < TOP
    ensures FilledRoot(Insert(root, key, val, id, h).tree, PreparedHeight(root, h))
  {
    hide Valid, Find, SplitChild, NextChild, Filled, PreparedRoot;
    PreparedValid(root, h, id);
    PreparedFilled(root, h, id);
    RootInsertFilled(PreparedRoot(root, id), key, val, id, PreparedHeight(root, h));
  }

  lemma RootInsertFilled(t: Tree, key: Key, val: Value, id: nat, h: nat)
    requires h > 0 && Valid(t, h, 0, TOP) && t.Internal? && !Full(t) && key < TOP && (h > 1 ==> |t.children| >= 2)
    requires AllFilled(t.children) || (|t.children| == 1 && t.children[0].Leaf?)
    ensures FilledRoot(InsertNode(t, key, val, id, h, 0, TOP).tree, h)
  {
    hide Valid, Find, SplitChild, NextChild, Filled;
    KeySlots(t, h, 0, TOP);
    var i := RouteOf(t, key);
    NextChildFits(t, h, 0, TOP, key, id);
    SplitChildValid(t, h, 0, TOP, i, id);
    SplitChildFilled(t, i, id);
    var t1, j := SplitChild(t, i, id), NextChild(t, i, key);
    ChildRange(t1, h, 0, TOP, key);
    if AllFilled(t1.children) {
      InsertNodeFilled(t1.children[j], key, val, id, h - 1, Low(t1, j, 0), High(t1, j, TOP));
    }
  }

  function Pow5(n: nat): nat { if n == 0 then 1 else 5 * Pow5(n - 1) }

  lemma {:induction false} FilledCount(t: Tree, h: nat)
    requires Shaped(t, h) && Filled(t)
    ensures |Entries(Leaves(t))| >= 4 * Pow5(h)
    decreases h, 0
  {
    if t.Leaf? {
      assert Entries([t]) == LeafEntries(t);
    } else {
      ChildrenCount(t.children, h - 1);
      AtLeast(|t.children|, 5, 4 * Pow5(h - 1));
    }
  }

  lemma {:induction false} ChildrenCount(ts: seq<Tree>, h: nat)
    requires forall i :: 0 <= i < |ts| ==> Shaped(ts[i], h) && Filled(ts[i])
    ensures |Entries(LeavesOf(ts))| >= |ts| * (4 * Pow5(h))
    decreases h, 1 + |ts|
  {
    hide Leaves, Entries, Pow5;
    if ts == [] {
      NoEntries(ts);
    } else {
      FilledCount(ts[0], h);
      ChildrenCount(ts[1..], h);
      EntriesAppend(Leaves(ts[0]), LeavesOf(ts[1..]));
      assert |ts| * (4 * Pow5(h)) == (|ts| - 1) * (4 * Pow5(h)) + 4 * Pow5(h);
    }
  }

  lemma AtLeast(a: nat, b: nat, w: nat)
    requires a >= b
    ensures a * w >= b * w
  {
  }

  lemma {:induction false} SortedCount(es: seq<(Key, Value)>, lo: nat, hi: nat, keys: set<Key>)
    requires Ascending(es, lo, hi) && forall k :: k in keys <==> exists i :: 0 <= i < |es| && es[i].0 == k
    ensures |keys| == |es|
  {
    if es == [] {
      assert keys == {};
    } else {
      var n := |es| - 1;
      var rest := keys - {es[n].0};
      forall k ensures k in rest <==> exists i :: 0 <= i < n && es[..n][i].0 == k {
        if k in rest { var i :| 0 <= i < |es| && es[i].0 == k; assert es[..n][i].0 == k; }
        if i :| 0 <= i < n && es[..n][i].0 == k { assert es[i].0 == k; }
      }
      SortedCount(es[..n], lo, hi, rest);
      assert es[n].0 in keys;
    }
  }

  /** The map a tree stands for has as many keys as the leaves have entries. */
  lemma ContentsSize(t: Tree, h: nat)
    requires h > 0 && Valid(t, h, 0, TOP)
    ensures |Contents(t)| == |Entries(Leaves(t))|
  {
    hide Valid, Find, Contents, Leaves, Entries;
    var es := Entries(Leaves(t));
    EntriesAscend(t, h, 0, TOP);
    forall k: nat ensures k in Contents(t).Keys <==> exists i :: 0 <= i < |es| && es[i].0 == k {
      ContentsFind(t, h, k);
      if k in Contents(t) {
        EntriesExact(t, h, 0, TOP, k, Contents(t)[k]);
        var i :| 0 <= i < |es| && es[i] == (k, Contents(t)[k]);
      }
      if i :| 0 <= i < |es| && es[i].0 == k {
        assert es[i] == (k, es[i].1) && es[i] in es;
        EntriesExact(t, h, 0, TOP, k, es[i].1);
      }
    }
    SortedCount(es, 0, TOP, Contents(t).Keys);
  }

  /** A tree built by insertions with `h >= 2` internal levels holds at least `8 * 5^(h-1)` keys. */
  lemma HeightBound(t: Tree, h: nat)
    requires h >= 2 && ValidRoot(t, h) && FilledRoot(t, h)
    ensures |Contents(t)| >= 8 * Pow5(h - 1)
  {
    hide Entries, Filled, Pow5, Valid, Contents, Find, LeavesOf;
    ContentsSize(t, h);
    forall i: nat | i < |t.children| ensures Shaped(t.children[i], h - 1) { ChildShaped(t, h, 0, TOP, i); }
    ChildrenCount(t.children, h - 1);
    AtLeast(|t.children|, 2, 4 * Pow5(h - 1));
  }
}
