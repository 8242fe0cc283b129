/**
 * B-trees as values: what insert, get and remove do to the nodes, slot for slot.
 *
 * A node has 9 key slots. Slots past the ones in use keep whatever was stored in them before.
 */
module BTrees {
  import opened Options

  type Key = nat
  /** The address of a stored object; the null pointer marks an empty slot and is not a value. */
  type Value = nat

  const INTERNAL_MAX: nat := 10
  const INTERNAL_MIN: nat := 5
  const LEAF_MAX: nat := 9
  const LEAF_MIN: nat := 5
  const SLOTS: nat := 9

  /** `id` names the leaf in the leaf chain. */
  datatype Tree =
    | Leaf(id: nat, keys: seq<Key>, vals: seq<Value>)
    | Internal(keys: seq<Key>, children: seq<Tree>)

  // ---- searching

  /** The first child whose right separator is above `key`. */
  function Route(keys: seq<Key>, n: nat, key: Key, i: nat): (r: nat)
    requires |keys| == SLOTS && 0 < n <= INTERNAL_MAX && i < n
    ensures i <= r < n
    ensures forall j :: i <= j < r ==> keys[j] <= key
    ensures r < n - 1 ==> key < keys[r]
    decreases n - i
  {
    if i + 1 < n && key >= keys[i] then Route(keys, n, key, i + 1) else i
  }

  function RouteOf(t: Tree, key: Key): (r: nat)
    requires t.Internal? && |t.keys| == SLOTS && 0 < |t.children| <= INTERNAL_MAX
    ensures r < |t.children|
  {
    Route(t.keys, |t.children|, key, 0)
  }

  /** The first entry that is not below `key`. */
  function Position(keys: seq<Key>, n: nat, key: Key, i: nat): (r: nat)
    requires |keys| == SLOTS && i <= n <= LEAF_MAX
    ensures i <= r <= n
    ensures forall j :: i <= j < r ==> keys[j] < key
    ensures r < n ==> key <= keys[r]
    decreases n - i
  {
    if i < n && key > keys[i] then Position(keys, n, key, i + 1) else i
  }

  /** Every node has room for its children, and all leaves are `h` levels below. */
  ghost predicate Shaped(t: Tree, h: nat) {
    match t
    case Leaf(_, keys, vals) => h == 0 && |keys| == SLOTS && |vals| <= LEAF_MAX
    case Internal(keys, children) =>
      h > 0 && |keys| == SLOTS && 0 < |children| <= INTERNAL_MAX
      && forall i :: 0 <= i < |children| ==> Shaped(children[i], h - 1)
  }

  function Find(t: Tree, key: Key): Option<Value> {
    match t
    case Leaf(_, keys, vals) =>
      if |keys| == SLOTS && |vals| <= LEAF_MAX then
        var i := Position(keys, |vals|, key, 0);
        if i < |vals| && keys[i] == key then Some(vals[i]) else None
      else None
    case Internal(keys, children) =>
      if |keys| == SLOTS && 0 < |children| <= INTERNAL_MAX then Find(children[Route(keys, |children|, key, 0)], key)
      else None
  }

  // ---- separators bound their subtrees

  function Low(t: Tree, i: nat, lo: nat): nat
    requires t.Internal? && i <= SLOTS == |t.keys|
  {
    if i == 0 then lo else t.keys[i - 1]
  }

  function High(t: Tree, i: nat, hi: nat): nat
    requires t.Internal? && |t.keys| == SLOTS
  {
    if i + 1 < |t.children| && i < SLOTS then t.keys[i] else hi
  }

  predicate Rising(keys: seq<Key>, n: nat) {
    n <= |keys| && forall i, j :: 0 <= i < j < n ==> keys[i] < keys[j]
  }

  predicate NotFalling(keys: seq<Key>, n: int) {
    n <= |keys| && forall i, j :: 0 <= i < j < n ==> keys[i] <= keys[j]
  }

  /** All keys of `t` are in `[lo, hi)`, and every separator of `t` parts its neighbours. */
  ghost predicate Bounded(t: Tree, h: nat, lo: nat, hi: nat)
    requires Shaped(t, h)
  {
    match t
    case Leaf(_, keys, vals) => Rising(keys, |vals|) && forall i :: 0 <= i < |vals| ==> lo <= keys[i] < hi
    case Internal(keys, children) =>
      && NotFalling(keys, |children| - 1) && (forall i :: 0 <= i < |children| - 1 ==> lo <= keys[i] <= hi)
      && forall i :: 0 <= i < |children| ==> Bounded(children[i], h - 1, Low(t, i, lo), High(t, i, hi))
  }

  ghost predicate Valid(t: Tree, h: nat, lo: nat, hi: nat) {
    Shaped(t, h) && Bounded(t, h, lo, hi)
  }

  ghost function Keys(t: Tree): set<Key> {
    match t
    case Leaf(_, keys, vals) => set i | 0 <= i < |vals| && i < |keys| :: keys[i]
    case Internal(_, children) => set i, k | 0 <= i < |children| && k in Keys(children[i]) :: k
  }

  lemma ChildValid(t: Tree, h: nat, lo: nat, hi: nat, i: nat)
    requires Valid(t, h, lo, hi) && t.Internal? && i < |t.children|
    ensures h > 0 && |t.keys| == SLOTS && |t.children| <= INTERNAL_MAX
    ensures Valid(t.children[i], h - 1, Low(t, i, lo), High(t, i, hi))
  {
  }

  lemma {:induction false} KeysInRange(t: Tree, h: nat, lo: nat, hi: nat, k: Key)
    requires Valid(t, h, lo, hi) && k in Keys(t)
    ensures lo <= k < hi
  {
    if t.Internal? {
      var i :| 0 <= i < |t.children| && k in Keys(t.children[i]);
      KeysInRange(t.children[i], h - 1, Low(t, i, lo), High(t, i, hi), k);
    }
  }

  /** A key in the range of child `i` is routed to child `i`. */
  lemma RouteRange(t: Tree, h: nat, lo: nat, hi: nat, key: Key, i: nat)
    requires Valid(t, h, lo, hi) && t.Internal? && i < |t.children| && |t.keys| == SLOTS && |t.children| <= INTERNAL_MAX
    requires Low(t, i, lo) <= key < High(t, i, hi)
    ensures RouteOf(t, key) == i
  {
  }

  lemma RoutedInRange(t: Tree, h: nat, lo: nat, hi: nat, key: Key)
    requires Valid(t, h, lo, hi) && t.Internal? && lo <= key < hi
    ensures h > 0 && |t.keys| == SLOTS && |t.children| <= INTERNAL_MAX
    ensures Low(t, RouteOf(t, key), lo) <= key < High(t, RouteOf(t, key), hi)
  {
  }

  lemma {:induction false} FoundIsKey(t: Tree, k: Key)
    requires Find(t, k).Some?
    ensures k in Keys(t)
  {
    if t.Internal? { FoundIsKey(t.children[Route(t.keys, |t.children|, k, 0)], k); }
  }

  lemma {:induction false} KeyIsFound(t: Tree, h: nat, lo: nat, hi: nat, k: Key)
    requires Valid(t, h, lo, hi) && k in Keys(t)
    ensures Find(t, k).Some?
  {
    hide Valid;
    if t.Leaf? {
      LeafKeyIsFound(t, h, lo, hi, k);
    } else {
      var i :| 0 <= i < |t.children| && k in Keys(t.children[i]);
      ChildValid(t, h, lo, hi, i);
      KeysInRange(t.children[i], h - 1, Low(t, i, lo), High(t, i, hi), k);
      RouteRange(t, h, lo, hi, k, i);
      KeyIsFound(t.children[i], h - 1, Low(t, i, lo), High(t, i, hi), k);
    }
  }

  lemma LeafKeyIsFound(t: Tree, h: nat, lo: nat, hi: nat, k: Key)
    requires Valid(t, h, lo, hi) && t.Leaf? && k in Keys(t)
    ensures Find(t, k).Some?
  {
    var i :| 0 <= i < |t.vals| && t.keys[i] == k;
  }

  /** The search finds exactly the keys the tree holds. */
  lemma FindsKeys(t: Tree, h: nat, lo: nat, hi: nat, k: Key)
    requires Valid(t, h, lo, hi)
    ensures Find(t, k).Some? <==> k in Keys(t)
  {
    hide Valid, Find, Keys;
    if Find(t, k).Some? { FoundIsKey(t, k); }
    if k in Keys(t) { KeyIsFound(t, h, lo, hi, k); }
  }

  // ---- splitting full nodes

  predicate Full(t: Tree) {
    match t
    case Leaf(_, _, vals) => |vals| == LEAF_MAX
    case Internal(_, children) => |children| == INTERNAL_MAX
  }

  function Zeros(n: nat): seq<Key> { seq(n, _ => 0) }

  function SplitKey(t: Tree): Key
    requires |t.keys| == SLOTS
  {
    if t.Leaf? then t.keys[LEAF_MIN] else t.keys[INTERNAL_MIN - 1]
  }

  function LeftHalf(t: Tree): Tree
    requires |t.keys| == SLOTS && Full(t)
  {
    match t
    case Leaf(id, keys, vals) => Leaf(id, keys[..LEAF_MIN] + Zeros(SLOTS - LEAF_MIN), vals[..LEAF_MIN])
    case Internal(keys, children) =>
      Internal(keys[..INTERNAL_MIN - 1] + Zeros(SLOTS - INTERNAL_MIN + 1), children[..INTERNAL_MIN])
  }

  /** The new sibling; `id` names it when it is a leaf. */
  function RightHalf(t: Tree, id: nat): Tree
    requires |t.keys| == SLOTS && Full(t)
  {
    match t
    case Leaf(_, keys, vals) => Leaf(id, keys[LEAF_MIN..] + Zeros(LEAF_MIN), vals[LEAF_MIN..])
    case Internal(keys, children) => Internal(keys[INTERNAL_MIN..] + Zeros(INTERNAL_MIN), children[INTERNAL_MIN..])
  }

  /** Puts `child` at index `idx` and `key` before it, moving the later ones one slot up. */
  function ShiftInsert(t: Tree, idx: nat, child: Tree, key: Key): Tree
    requires t.Internal? && |t.keys| == SLOTS && 0 < idx <= |t.children| < INTERNAL_MAX
  {
    Internal(t.keys[..idx - 1] + [key] + t.keys[idx - 1..SLOTS - 1], t.children[..idx] + [child] + t.children[idx..])
  }

  lemma SplitLeafValid(t: Tree, h: nat, lo: nat, hi: nat, id: nat)
    requires Valid(t, h, lo, hi) && t.Leaf? && Full(t)
    ensures lo <= SplitKey(t) <= hi
    ensures Valid(LeftHalf(t), h, lo, SplitKey(t)) && Valid(RightHalf(t, id), h, SplitKey(t), hi)
  {
  }

  /** The entry index is determined by its neighbours. */
  lemma PositionIs(keys: seq<Key>, n: nat, k: Key, r: nat)
    requires |keys| == SLOTS && n <= LEAF_MAX && Rising(keys, n) && r <= n
    requires forall j :: 0 <= j < r ==> keys[j] < k
    requires r < n ==> k <= keys[r]
    ensures Position(keys, n, k, 0) == r
  {
  }

  lemma SplitLeafFind(t: Tree, id: nat, k: Key)
    requires t.Leaf? && |t.keys| == SLOTS && |t.vals| == LEAF_MAX && Rising(t.keys, LEAF_MAX)
    ensures Find(t, k) == if k < SplitKey(t) then Find(LeftHalf(t), k) else Find(RightHalf(t, id), k)
  {
    hide Shaped, Bounded, Rising, Position;
    var i := Position(t.keys, LEAF_MAX, k, 0);
    SplitLeafRising(t, id);
    if k < SplitKey(t) {
      SplitBelow(t, k);
      PositionIs(LeftHalf(t).keys, LEAF_MIN, k, i);
    } else {
      SplitAbove(t, id, k);
      PositionIs(RightHalf(t, id).keys, LEAF_MAX - LEAF_MIN, k, i - LEAF_MIN);
    }
  }

  lemma SplitLeafRising(t: Tree, id: nat)
    requires t.Leaf? && |t.keys| == SLOTS && |t.vals| == LEAF_MAX && Rising(t.keys, LEAF_MAX)
    ensures Rising(LeftHalf(t).keys, LEAF_MIN) && Rising(RightHalf(t, id).keys, LEAF_MAX - LEAF_MIN)
  {
  }

  lemma SplitBelow(t: Tree, k: Key)
    requires t.Leaf? && |t.keys| == SLOTS && |t.vals| == LEAF_MAX && Rising(t.keys, LEAF_MAX) && k < SplitKey(t)
    ensures var i := Position(t.keys, LEAF_MAX, k, 0);
            && i <= LEAF_MIN && (forall j :: 0 <= j < i ==> LeftHalf(t).keys[j] < k)
            && (i < LEAF_MIN ==> k <= LeftHalf(t).keys[i])
  {
  }

  lemma SplitAbove(t: Tree, id: nat, k: Key)
    requires t.Leaf? && |t.keys| == SLOTS && |t.vals| == LEAF_MAX && Rising(t.keys, LEAF_MAX) && k >= SplitKey(t)
    ensures var i, r := Position(t.keys, LEAF_MAX, k, 0), RightHalf(t, id);
            && LEAF_MIN <= i && (forall j :: 0 <= j < i - LEAF_MIN ==> r.keys[j] < k)
            && (i < LEAF_MAX ==> k <= r.keys[i - LEAF_MIN])
  {
    hide Position;
    var i, r := Position(t.keys, LEAF_MAX, k, 0), RightHalf(t, id);
    assert forall j :: 0 <= j < LEAF_MAX - LEAF_MIN ==> r.keys[j] == t.keys[j + LEAF_MIN];
    assert t.keys[LEAF_MIN] <= k;
  }

  lemma SplitInternalValid(t: Tree, h: nat, lo: nat, hi: nat, id: nat)
    requires Valid(t, h, lo, hi) && t.Internal? && Full(t)
    ensures lo <= SplitKey(t) <= hi
    ensures Valid(LeftHalf(t), h, lo, SplitKey(t)) && Valid(RightHalf(t, id), h, SplitKey(t), hi)
  {
    var sep, l, r := SplitKey(t), LeftHalf(t), RightHalf(t, id);
    forall i: nat | i < |t.children| ensures Valid(t.children[i], h - 1, Low(t, i, lo), High(t, i, hi)) {
      ChildValid(t, h, lo, hi, i);
    }
    hide Valid;
    assert forall i: nat :: i < |l.children| ==> l.children[i] == t.children[i] && Low(l, i, lo) == Low(t, i, lo) && High(l, i, sep) == High(t, i, hi);
    assert forall i: nat :: i < |r.children| ==>
      r.children[i] == t.children[i + 5] && Low(r, i, sep) == Low(t, i + 5, lo) && High(r, i, hi) == High(t, i + 5, hi);
    InternalValid(l, h, lo, sep);
    InternalValid(r, h, sep, hi);
  }

  /** What makes an internal node valid. */
  lemma InternalValid(t: Tree, h: nat, lo: nat, hi: nat)
    requires t.Internal? && h > 0 && |t.keys| == SLOTS && 0 < |t.children| <= INTERNAL_MAX
    requires NotFalling(t.keys, |t.children| - 1) && forall i :: 0 <= i < |t.children| - 1 ==> lo <= t.keys[i] <= hi
    requires forall i: nat :: i < |t.children| ==> Valid(t.children[i], h - 1, Low(t, i, lo), High(t, i, hi))
    ensures Valid(t, h, lo, hi)
  {
  }

  /** The child index is determined by the separators around it. */
  lemma RouteIs(keys: seq<Key>, n: nat, k: Key, r: nat)
    requires |keys| == SLOTS && 0 < n <= INTERNAL_MAX && r < n
    requires forall j :: 0 <= j < r ==> keys[j] <= k
    requires r < n - 1 ==> k < keys[r]
    ensures Route(keys, n, k, 0) == r
  {
  }

  lemma SplitInternalFind(t: Tree, id: nat, k: Key)
    requires t.Internal? && |t.keys| == SLOTS && |t.children| == INTERNAL_MAX && NotFalling(t.keys, SLOTS)
    ensures Find(t, k) == if k < SplitKey(t) then Find(LeftHalf(t), k) else Find(RightHalf(t, id), k)
  {
    hide Route;
    var i := Route(t.keys, INTERNAL_MAX, k, 0);
    if k < SplitKey(t) {
      RouteIs(LeftHalf(t).keys, INTERNAL_MIN, k, i);
    } else {
      assert t.keys[4] <= k && i >= 5;
      RouteIs(RightHalf(t, id).keys, INTERNAL_MIN, k, i - INTERNAL_MIN);
    }
  }

  lemma SplitValid(t: Tree, h: nat, lo: nat, hi: nat, id: nat)
    requires Valid(t, h, lo, hi) && Full(t)
    ensures |t.keys| == SLOTS && lo <= SplitKey(t) <= hi
    ensures Valid(LeftHalf(t), h, lo, SplitKey(t)) && Valid(RightHalf(t, id), h, SplitKey(t), hi)
    ensures forall k: nat :: Find(t, k) == if k < SplitKey(t) then Find(LeftHalf(t), k) else Find(RightHalf(t, id), k)
  {
    KeySlots(t, h, lo, hi);
    hide Valid, Find;
    forall k: nat ensures Find(t, k) == if k < SplitKey(t) then Find(LeftHalf(t), k) else Find(RightHalf(t, id), k) {
      if t.Leaf? { SplitLeafFind(t, id, k); } else { SplitInternalFind(t, id, k); }
    }
    if t.Leaf? { SplitLeafValid(t, h, lo, hi, id); } else { SplitInternalValid(t, h, lo, hi, id); }
  }

  lemma KeySlots(t: Tree, h: nat, lo: nat, hi: nat)
    requires Valid(t, h, lo, hi)
    ensures |t.keys| == SLOTS
    ensures t.Leaf? ==> |t.vals| <= LEAF_MAX && Rising(t.keys, |t.vals|)
    ensures t.Internal? ==> 0 < |t.children| <= INTERNAL_MAX && NotFalling(t.keys, |t.children| - 1)
    ensures t.Internal? <==> h > 0
  {
  }

  // ---- replacing a child

  /** Child `i` replaced by one that fits the same range. */
  lemma ReplaceChild(t: Tree, h: nat, lo: nat, hi: nat, i: nat, child: Tree)
    requires Valid(t, h, lo, hi) && t.Internal? && i < |t.children| && |t.keys| == SLOTS && |t.children| <= INTERNAL_MAX
    requires h > 0 && Valid(child, h - 1, Low(t, i, lo), High(t, i, hi))
    ensures Valid(t.(children := t.children[i := child]), h, lo, hi)
    ensures forall k: nat :: Find(t.(children := t.children[i := child]), k)
                        == if RouteOf(t, k) == i then Find(child, k) else Find(t, k)
  {
    var t' := t.(children := t.children[i := child]);
    forall j: nat | j < |t.children| ensures Valid(t.children[j], h - 1, Low(t, j, lo), High(t, j, hi)) {
      ChildValid(t, h, lo, hi, j);
    }
    KeySlots(t, h, lo, hi);
    ReplaceSeparators(t, h, lo, hi);
    ReplaceValid(t, t', h, lo, hi, i);
  }

  lemma ReplaceSeparators(t: Tree, h: nat, lo: nat, hi: nat)
    requires Valid(t, h, lo, hi) && t.Internal?
    ensures NotFalling(t.keys, |t.children| - 1) && forall i :: 0 <= i < |t.children| - 1 && i < |t.keys| ==> lo <= t.keys[i] <= hi
  {
  }

  lemma ReplaceValid(t: Tree, t': Tree, h: nat, lo: nat, hi: nat, i: nat)
    requires t.Internal? && t'.Internal? && t'.keys == t.keys && |t.keys| == SLOTS && 0 < |t.children| <= INTERNAL_MAX
    requires h > 0 && i < |t.children| == |t'.children| && t'.children == t.children[i := t'.children[i]]
    requires NotFalling(t.keys, |t.children| - 1) && forall i :: 0 <= i < |t.children| - 1 ==> lo <= t.keys[i] <= hi
    requires forall j: nat :: j < |t.children| ==> Valid(t.children[j], h - 1, Low(t, j, lo), High(t, j, hi))
    requires Valid(t'.children[i], h - 1, Low(t, i, lo), High(t, i, hi))
    ensures Valid(t', h, lo, hi)
  {
    hide Valid;
    assert forall j: nat :: j < |t'.children| ==> Low(t', j, lo) == Low(t, j, lo) && High(t', j, hi) == High(t, j, hi);
    InternalValid(t', h, lo, hi);
  }

  /** Child `i` parted into `left` and `right` at `sep`. */
  function Parted(t: Tree, i: nat, left: Tree, sep: Key, right: Tree): Tree
    requires t.Internal? && |t.keys| == SLOTS && i < |t.children| < INTERNAL_MAX
  {
    ShiftInsert(t.(children := t.children[i := left]), i + 1, right, sep)
  }

  function PartedChild(t: Tree, i: nat, left: Tree, right: Tree, j: nat): Tree
    requires t.Internal? && i < |t.children| && j <= |t.children|
  {
    if j < i then t.children[j] else if j == i then left else if j == i + 1 then right else t.children[j - 1]
  }

  function PartedKey(t: Tree, i: nat, sep: Key, j: nat): Key
    requires |t.keys| == SLOTS && j < SLOTS
  {
    if j < i then t.keys[j] else if j == i then sep else t.keys[j - 1]
  }

  lemma PartedSlots(t: Tree, i: nat, left: Tree, sep: Key, right: Tree, p: Tree)
    requires t.Internal? && |t.keys| == SLOTS && i < |t.children| < INTERNAL_MAX && p == Parted(t, i, left, sep, right)
    ensures p.Internal? && |p.keys| == SLOTS && |p.children| == |t.children| + 1
    ensures forall j: nat :: j < |p.children| ==> p.children[j] == PartedChild(t, i, left, right, j)
    ensures forall j: nat :: j < SLOTS ==> p.keys[j] == PartedKey(t, i, sep, j)
  {
  }

  lemma PartedValid(t: Tree, h: nat, lo: nat, hi: nat, i: nat, left: Tree, sep: Key, right: Tree)
    requires Valid(t, h, lo, hi) && t.Internal? && |t.keys| == SLOTS && i < |t.children| < INTERNAL_MAX && h > 0
    requires Low(t, i, lo) <= sep <= High(t, i, hi)
    requires Valid(left, h - 1, Low(t, i, lo), sep) && Valid(right, h - 1, sep, High(t, i, hi))
    ensures Valid(Parted(t, i, left, sep, right), h, lo, hi)
  {
    forall j: nat | j < |t.children| ensures Valid(t.children[j], h - 1, Low(t, j, lo), High(t, j, hi)) {
      ChildValid(t, h, lo, hi, j);
    }
    ReplaceSeparators(t, h, lo, hi);
    PartedFits(t, h, lo, hi, i, left, sep, right);
  }

  lemma PartedFits(t: Tree, h: nat, lo: nat, hi: nat, i: nat, left: Tree, sep: Key, right: Tree)
    requires t.Internal? && |t.keys| == SLOTS && i < |t.children| < INTERNAL_MAX && h > 0
    requires NotFalling(t.keys, |t.children| - 1) && forall j :: 0 <= j < |t.children| - 1 ==> lo <= t.keys[j] <= hi
    requires forall j: nat :: j < |t.children| ==> Valid(t.children[j], h - 1, Low(t, j, lo), High(t, j, hi))
    requires Low(t, i, lo) <= sep <= High(t, i, hi)
    requires Valid(left, h - 1, Low(t, i, lo), sep) && Valid(right, h - 1, sep, High(t, i, hi))
    ensures Valid(Parted(t, i, left, sep, right), h, lo, hi)
  {
    hide Valid, Parted, ShiftInsert;
    var p := Parted(t, i, left, sep, right);
    PartedSlots(t, i, left, sep, right, p);
    assert lo <= sep <= hi;
    forall j: nat | j < |p.children| ensures Valid(p.children[j], h - 1, Low(p, j, lo), High(p, j, hi)) {
      if j < i {
        assert Low(p, j, lo) == Low(t, j, lo) && High(p, j, hi) == High(t, j, hi);
      } else if j > i + 1 {
        assert Low(p, j, lo) == Low(t, j - 1, lo) && High(p, j, hi) == High(t, j - 1, hi);
      }
    }
    InternalValid(p, h, lo, hi);
  }

  lemma PartedFind(t: Tree, h: nat, lo: nat, hi: nat, i: nat, left: Tree, sep: Key, right: Tree, k: Key)
    requires t.Internal? && |t.keys| == SLOTS && i < |t.children| < INTERNAL_MAX && h > 0
    requires NotFalling(t.keys, |t.children| - 1)
    requires Low(t, i, lo) <= sep <= High(t, i, hi)
    requires i > 0 ==> t.keys[i - 1] <= sep
    requires i < |t.children| - 1 ==> sep <= t.keys[i]
    ensures Find(Parted(t, i, left, sep, right), k) ==
            if RouteOf(t, k) != i then Find(t, k) else if k < sep then Find(left, k) else Find(right, k)
  {
    hide Route, ShiftInsert, Parted;
    var p, r := Parted(t, i, left, sep, right), RouteOf(t, k);
    PartedSlots(t, i, left, sep, right, p);
    RouteIs(p.keys, |p.children|, k, if r < i || (r == i && k < sep) then r else r + 1);
  }

  /** Splits child `i` when it is full, so that the descent never meets a full node. */
  function SplitChild(t: Tree, i: nat, id: nat): Tree
    requires t.Internal? && |t.keys| == SLOTS && i < |t.children| < INTERNAL_MAX && |t.children[i].keys| == SLOTS
  {
    var child := t.children[i];
    if Full(child) then Parted(t, i, LeftHalf(child), SplitKey(child), RightHalf(child, id)) else t
  }

  /** The child in which the descent goes on. */
  function NextChild(t: Tree, i: nat, key: Key): nat
    requires t.Internal? && i < |t.children| && |t.children[i].keys| == SLOTS
  {
    if Full(t.children[i]) && key >= SplitKey(t.children[i]) then i + 1 else i
  }

  lemma SplitChildValid(t: Tree, h: nat, lo: nat, hi: nat, i: nat, id: nat)
    requires Valid(t, h, lo, hi) && t.Internal? && i < |t.children| < INTERNAL_MAX
    ensures |t.keys| == SLOTS && |t.children[i].keys| == SLOTS && Valid(SplitChild(t, i, id), h, lo, hi)
    ensures SplitChild(t, i, id).Internal? && |SplitChild(t, i, id).children| <= |t.children| + 1
    ensures forall k: nat :: Find(SplitChild(t, i, id), k) == Find(t, k)
  {
    hide Valid, Find, LeftHalf, RightHalf, SplitKey, Full, Parted;
    KeySlots(t, h, lo, hi);
    ChildValid(t, h, lo, hi, i);
    var child := t.children[i];
    var low, high := Low(t, i, lo), High(t, i, hi);
    KeySlots(child, h - 1, low, high);
    if Full(child) {
      SplitValid(child, h - 1, low, high, id);
      var left, sep, right := LeftHalf(child), SplitKey(child), RightHalf(child, id);
      PartedValid(t, h, lo, hi, i, left, sep, right);
      PartedSlots(t, i, left, sep, right, Parted(t, i, left, sep, right));
      forall k: nat ensures Find(Parted(t, i, left, sep, right), k) == Find(t, k) {
        PartedFind(t, h, lo, hi, i, left, sep, right, k);
        FindRouted(t, k);
      }
    }
  }

  lemma FindRouted(t: Tree, k: Key)
    requires t.Internal? && |t.keys| == SLOTS && 0 < |t.children| <= INTERNAL_MAX
    ensures Find(t, k) == Find(t.children[RouteOf(t, k)], k)
  {
  }

  /** After the split, the key belongs to the chosen child, and that child is not full. */
  lemma NextChildFits(t: Tree, h: nat, lo: nat, hi: nat, key: Key, id: nat)
    requires Valid(t, h, lo, hi) && t.Internal? && |t.children| < INTERNAL_MAX && lo <= key < hi && |t.keys| == SLOTS
    ensures var i := RouteOf(t, key);
            && |t.children[i].keys| == SLOTS && NextChild(t, i, key) < |SplitChild(t, i, id).children|
            && |SplitChild(t, i, id).keys| == SLOTS && |SplitChild(t, i, id).children| <= INTERNAL_MAX
            && RouteOf(SplitChild(t, i, id), key) == NextChild(t, i, key)
            && !Full(SplitChild(t, i, id).children[NextChild(t, i, key)])
  {
    hide Valid, Parted;
    KeySlots(t, h, lo, hi);
    RoutedInRange(t, h, lo, hi, key);
    var i := RouteOf(t, key);
    ChildValid(t, h, lo, hi, i);
    var child := t.children[i];
    KeySlots(child, h - 1, Low(t, i, lo), High(t, i, hi));
    if Full(child) {
      SplitValid(child, h - 1, Low(t, i, lo), High(t, i, hi), id);
      var left, sep, right := LeftHalf(child), SplitKey(child), RightHalf(child, id);
      var p := Parted(t, i, left, sep, right);
      PartedSlots(t, i, left, sep, right, p);
      PartedRoute(t, i, left, sep, right, key);
    }
  }

  lemma PartedRoute(t: Tree, i: nat, left: Tree, sep: Key, right: Tree, k: Key)
    requires t.Internal? && |t.keys| == SLOTS && i < |t.children| < INTERNAL_MAX && RouteOf(t, k) == i
    ensures |Parted(t, i, left, sep, right).keys| == SLOTS && |Parted(t, i, left, sep, right).children| <= INTERNAL_MAX
    ensures RouteOf(Parted(t, i, left, sep, right), k) == if k < sep then i else i + 1
  {
    hide Route, ShiftInsert, Parted;
    var p := Parted(t, i, left, sep, right);
    PartedSlots(t, i, left, sep, right, p);
    RouteIs(p.keys, |p.children|, k, if k < sep then i else i + 1);
  }

  // ---- insertion

  /** The slot of a key: the leaf and the index in it. */
  datatype Place = Place(leaf: nat, pos: nat)

  /** `split` is the leaf that was split on the way, if one was. */
  datatype InsertResult = InsertResult(tree: Tree, inserted: bool, place: Place, split: Option<nat>)

  function InsertInLeaf(t: Tree, key: Key, val: Value): InsertResult
    requires t.Leaf? && |t.keys| == SLOTS && |t.vals| < LEAF_MAX
  {
    var pos := Position(t.keys, |t.vals|, key, 0);
    if t.keys[pos] != key || pos == |t.vals| then
      InsertResult(Leaf(t.id, t.keys[..pos] + [key] + t.keys[pos..SLOTS - 1], t.vals[..pos] + [val] + t.vals[pos..]), true, Place(t.id, pos), None)
    else InsertResult(t, false, Place(t.id, pos), None)
  }

  /** Descends to the leaf of `key`, splitting every full node on the way; `id` names a new leaf. */
  function InsertNode(t: Tree, key: Key, val: Value, id: nat, ghost h: nat, ghost lo: nat, ghost hi: nat): (r: InsertResult)
    requires Valid(t, h, lo, hi) && lo <= key < hi && !Full(t)
    decreases h
  {
    KeySlots(t, h, lo, hi);
    if t.Leaf? then InsertInLeaf(t, key, val)
    else
      var i := RouteOf(t, key);
      NextChildFits(t, h, lo, hi, key, id);
      SplitChildValid(t, h, lo, hi, i, id);
      var t1, j := SplitChild(t, i, id), NextChild(t, i, key);
      ChildRange(t1, h, lo, hi, key);
      var r := InsertNode(t1.children[j], key, val, id, h - 1, Low(t1, j, lo), High(t1, j, hi));
      var split := if t.children[i].Leaf? && Full(t.children[i]) then Some(t.children[i].id) else r.split;
      r.(tree := t1.(children := t1.children[j := r.tree]), split := split)
  }

  /** The child a key is routed to is valid for a range that holds the key. */
  lemma ChildRange(t: Tree, h: nat, lo: nat, hi: nat, key: Key)
    requires Valid(t, h, lo, hi) && t.Internal? && lo <= key < hi
    ensures h > 0 && |t.keys| == SLOTS && 0 < |t.children| <= INTERNAL_MAX
    ensures var j := RouteOf(t, key);
            Low(t, j, lo) <= key < High(t, j, hi) && Valid(t.children[j], h - 1, Low(t, j, lo), High(t, j, hi))
  {
    RoutedInRange(t, h, lo, hi, key);
    ChildValid(t, h, lo, hi, RouteOf(t, key));
  }

  /** The slot in which the search for `key` ends, if it holds the key. */
  function Slot(t: Tree, key: Key): Option<Place> {
    match t
    case Leaf(id, keys, vals) =>
      if |keys| == SLOTS && |vals| <= LEAF_MAX then
        var i := Position(keys, |vals|, key, 0);
        if i < |vals| && keys[i] == key then Some(Place(id, i)) else None
      else None
    case Internal(keys, children) =>
      if |keys| == SLOTS && 0 < |children| <= INTERNAL_MAX then Slot(children[Route(keys, |children|, key, 0)], key)
      else None
  }

  /** `r` is leaf `t` with an entry put in at `pos`. */
  ghost predicate WithEntry(t: Tree, r: Tree, pos: nat, key: Key, val: Value) {
    && t.Leaf? && r.Leaf? && |t.keys| == SLOTS == |r.keys| && |t.vals| < LEAF_MAX && |r.vals| == |t.vals| + 1
    && pos <= |t.vals| && r.keys[pos] == key && r.vals[pos] == val && r.id == t.id
    && (forall j :: 0 <= j < pos ==> r.keys[j] == t.keys[j] && r.vals[j] == t.vals[j])
    && (forall j :: pos < j <= |t.vals| ==> r.keys[j] == t.keys[j - 1] && r.vals[j] == t.vals[j - 1])
  }

  lemma InsertLeafSlots(t: Tree, key: Key, val: Value)
    requires t.Leaf? && |t.keys| == SLOTS && |t.vals| < LEAF_MAX && InsertInLeaf(t, key, val).inserted
    ensures WithEntry(t, InsertInLeaf(t, key, val).tree, Position(t.keys, |t.vals|, key, 0), key, val)
  {
  }

  lemma WithEntryRising(t: Tree, r: Tree, pos: nat, key: Key, val: Value)
    requires WithEntry(t, r, pos, key, val) && Rising(t.keys, |t.vals|)
    requires pos > 0 ==> t.keys[pos - 1] < key
    requires pos < |t.vals| ==> key < t.keys[pos]
    ensures Rising(r.keys, |r.vals|)
  {
  }

  lemma WithEntryFindOther(t: Tree, r: Tree, pos: nat, key: Key, val: Value, k: Key)
    requires WithEntry(t, r, pos, key, val) && Rising(t.keys, |t.vals|) && Rising(r.keys, |r.vals|) && k != key
    ensures Find(r, k) == Find(t, k)
  {
    hide Position;
    var i := Position(t.keys, |t.vals|, k, 0);
    EntryPosition(t, r, pos, key, val, k, i);
    assert pos < |t.vals| ==> r.keys[pos + 1] == t.keys[pos] && r.keys[pos] < r.keys[pos + 1];
    assert i < |t.vals| ==> r.keys[if i < pos then i else i + 1] == t.keys[i];
  }

  lemma EntryPosition(t: Tree, r: Tree, pos: nat, key: Key, val: Value, k: Key, i: nat)
    requires WithEntry(t, r, pos, key, val) && Rising(r.keys, |r.vals|) && k != key
    requires i <= |t.vals| && (forall j :: 0 <= j < i ==> t.keys[j] < k) && (i < |t.vals| ==> k <= t.keys[i])
    ensures k < key ==> i <= pos && Position(r.keys, |r.vals|, k, 0) == i
    ensures k > key ==> pos <= i && Position(r.keys, |r.vals|, k, 0) == i + 1
  {
    hide Position;
    if k < key {
      assert pos < |t.vals| ==> t.keys[pos] == r.keys[pos + 1];
      PositionIs(r.keys, |r.vals|, k, i);
    } else {
      assert forall j :: 0 <= j < pos ==> r.keys[j] < r.keys[pos];
      PositionIs(r.keys, |r.vals|, k, i + 1);
    }
  }

  lemma WithEntryFindNew(t: Tree, r: Tree, pos: nat, key: Key, val: Value)
    requires WithEntry(t, r, pos, key, val) && Rising(r.keys, |r.vals|)
    ensures Find(r, key) == Some(val) && Slot(r, key) == Some(Place(t.id, pos))
  {
    hide Position;
    PositionIs(r.keys, |r.vals|, key, pos);
  }

  lemma InsertLeafCorrect(t: Tree, key: Key, val: Value, h: nat, lo: nat, hi: nat)
    requires Valid(t, h, lo, hi) && t.Leaf? && |t.keys| == SLOTS && |t.vals| < LEAF_MAX && lo <= key < hi
    ensures var r := InsertInLeaf(t, key, val);
            && Valid(r.tree, h, lo, hi) && (r.inserted <==> Find(t, key) == None)
            && Slot(r.tree, key) == Some(r.place) && r.tree.Leaf?
    ensures forall k: nat :: Find(InsertInLeaf(t, key, val).tree, k)
                             == if k == key && Find(t, key) == None then Some(val) else Find(t, k)
  {
    if InsertInLeaf(t, key, val).inserted { InsertLeafNew(t, key, val, h, lo, hi); }
  }

  lemma InsertLeafNew(t: Tree, key: Key, val: Value, h: nat, lo: nat, hi: nat)
    requires Valid(t, h, lo, hi) && t.Leaf? && |t.keys| == SLOTS && |t.vals| < LEAF_MAX && lo <= key < hi
    requires InsertInLeaf(t, key, val).inserted
    ensures Valid(InsertInLeaf(t, key, val).tree, h, lo, hi) && Find(t, key) == None
    ensures Slot(InsertInLeaf(t, key, val).tree, key) == Some(InsertInLeaf(t, key, val).place)
    ensures forall k: nat :: Find(InsertInLeaf(t, key, val).tree, k) == if k == key then Some(val) else Find(t, k)
  {
    InsertLeafSlots(t, key, val);
    var r, pos := InsertInLeaf(t, key, val).tree, Position(t.keys, |t.vals|, key, 0);
    hide InsertInLeaf;
    WithEntryRising(t, r, pos, key, val);
    WithEntryFindNew(t, r, pos, key, val);
    forall k: nat ensures Find(r, k) == if k == key then Some(val) else Find(t, k) {
      if k != key { WithEntryFindOther(t, r, pos, key, val, k); }
    }
  }

  /** What inserting `key` promises about the resulting subtree. */
  ghost predicate Inserted(t: Tree, r: InsertResult, key: Key, val: Value, h: nat, lo: nat, hi: nat) {
    && Valid(r.tree, h, lo, hi) && (r.inserted <==> Find(t, key) == None) && Slot(r.tree, key) == Some(r.place)
    && (forall k: nat :: Find(r.tree, k) == if k == key && Find(t, key) == None then Some(val) else Find(t, k))
    && (t.Leaf? <==> r.tree.Leaf?)
  }

  lemma SlotRouted(t: Tree, k: Key)
    requires t.Internal? && |t.keys| == SLOTS && 0 < |t.children| <= INTERNAL_MAX
    ensures Slot(t, k) == Slot(t.children[RouteOf(t, k)], k)
  {
  }

  lemma InsertedInChild(t: Tree, r: InsertResult, j: nat, key: Key, val: Value, h: nat, lo: nat, hi: nat)
    requires Valid(t, h, lo, hi) && h > 0 && t.Internal? && |t.keys| == SLOTS && j < |t.children| <= INTERNAL_MAX
    requires RouteOf(t, key) == j
    requires Inserted(t.children[j], r, key, val, h - 1, Low(t, j, lo), High(t, j, hi))
    ensures Inserted(t, r.(tree := t.(children := t.children[j := r.tree])), key, val, h, lo, hi)
  {
    hide Valid, Find, Slot, Route;
    var t' := t.(children := t.children[j := r.tree]);
    ReplaceChild(t, h, lo, hi, j, r.tree);
    SlotRouted(t', key);
    FindRouted(t, key);
    forall k: nat ensures Find(t', k) == if k == key && Find(t, key) == None then Some(val) else Find(t, k) {
      FindRouted(t, k);
    }
  }

  /**
   * Inserting into a subtree: separators still bound it, its leaves stay at one depth, no node overflows, the search
   * finds the new value under its key and everything else as before, and a known key is reported with its own slot.
   */
  lemma {:induction false} InsertNodeCorrect(t: Tree, key: Key, val: Value, id: nat, h: nat, lo: nat, hi: nat)
    requires Valid(t, h, lo, hi) && lo <= key < hi && !Full(t)
    ensures Inserted(t, InsertNode(t, key, val, id, h, lo, hi), key, val, h, lo, hi)
    decreases h
  {
    KeySlots(t, h, lo, hi);
    if t.Leaf? {
      InsertLeafCorrect(t, key, val, h, lo, hi);
    } else {
      hide Valid, Inserted, Find, SplitChild, NextChild, Full;
      var i := RouteOf(t, key);
      NextChildFits(t, h, lo, hi, key, id);
      SplitChildValid(t, h, lo, hi, i, id);
      var t1, j := SplitChild(t, i, id), NextChild(t, i, key);
      ChildRange(t1, h, lo, hi, key);
      InsertNodeCorrect(t1.children[j], key, val, id, h - 1, Low(t1, j, lo), High(t1, j, hi));
      var r := InsertNode(t1.children[j], key, val, id, h - 1, Low(t1, j, lo), High(t1, j, hi));
      InsertedInChild(t1, r, j, key, val, h, lo, hi);
      InsertedSameFind(t, t1, r.(tree := t1.(children := t1.children[j := r.tree])),
                       InsertNode(t, key, val, id, h, lo, hi), key, val, h, lo, hi);
    }
  }

  lemma InsertedSameFind(t: Tree, t1: Tree, r: InsertResult, r': InsertResult, key: Key, val: Value, h: nat, lo: nat, hi: nat)
    requires Inserted(t1, r, key, val, h, lo, hi) && (forall k: nat :: Find(t1, k) == Find(t, k)) && (t.Leaf? <==> t1.Leaf?)
    requires r' == r.(split := r'.split)
    ensures Inserted(t, r', key, val, h, lo, hi)
  {
  }

  // ---- the whole tree

  /** Keys are 32-bit numbers. */
  const TOP: nat := 0x1_0000_0000

  /** The root is an internal node; only the root may be empty. */
  ghost predicate ValidRoot(t: Tree, h: nat) {
    (t.Internal? && t.children == [] && |t.keys| == SLOTS && h == 1) || (h > 0 && Valid(t, h, 0, TOP))
  }

  /** The root as the descent finds it: split when full, given a first leaf when empty. */
  function PreparedRoot(t: Tree, id: nat): Tree
    requires t.Internal? && |t.keys| == SLOTS
  {
    if t.children == [] then Internal(t.keys, [Leaf(id, Zeros(SLOTS), [])])
    else if Full(t) then Internal([SplitKey(t)] + Zeros(SLOTS - 1), [LeftHalf(t), RightHalf(t, id)])
    else t
  }

  ghost function PreparedHeight(t: Tree, h: nat): nat { if Full(t) then h + 1 else h }

  lemma PreparedValid(t: Tree, h: nat, id: nat)
    requires ValidRoot(t, h)
    ensures t.Internal? && |t.keys| == SLOTS && Valid(PreparedRoot(t, id), PreparedHeight(t, h), 0, TOP)
    ensures PreparedRoot(t, id).Internal? && !Full(PreparedRoot(t, id))
    ensures forall k: nat :: Find(PreparedRoot(t, id), k) == Find(t, k)
  {
    if t.children == [] {
      PreparedEmpty(t, id);
    } else {
      KeySlots(t, h, 0, TOP);
      if Full(t) {
        SplitValid(t, h, 0, TOP, id);
        PreparedSplit(t, h, id);
      }
    }
  }

  lemma PreparedEmpty(t: Tree, id: nat)
    requires t.Internal? && t.children == [] && |t.keys| == SLOTS
    ensures Valid(PreparedRoot(t, id), 1, 0, TOP)
    ensures forall k: nat :: Find(PreparedRoot(t, id), k) == None == Find(t, k)
  {
    var leaf := Leaf(id, Zeros(SLOTS), []);
    assert Valid(leaf, 0, 0, TOP);
    InternalValid(PreparedRoot(t, id), 1, 0, TOP);
    forall k: nat ensures Find(PreparedRoot(t, id), k) == None {
      FindRouted(PreparedRoot(t, id), k);
    }
  }

  lemma PreparedSplit(t: Tree, h: nat, id: nat)
    requires t.Internal? && |t.keys| == SLOTS && Full(t) && 0 <= SplitKey(t) <= TOP
    requires Valid(LeftHalf(t), h, 0, SplitKey(t)) && Valid(RightHalf(t, id), h, SplitKey(t), TOP)
    requires forall k: nat :: Find(t, k) == if k < SplitKey(t) then Find(LeftHalf(t), k) else Find(RightHalf(t, id), k)
    ensures Valid(PreparedRoot(t, id), h + 1, 0, TOP)
    ensures forall k: nat :: Find(PreparedRoot(t, id), k) == Find(t, k)
  {
    hide LeftHalf, RightHalf, Valid, SplitKey, Find;
    var p := PreparedRoot(t, id);
    InternalValid(p, h + 1, 0, TOP);
    forall k: nat ensures Find(p, k) == Find(t, k) {
      FindRouted(p, k);
      RouteIs(p.keys, 2, k, if k < SplitKey(t) then 0 else 1);
    }
  }

  function Insert(root: Tree, key: Key, val: Value, id: nat, ghost h: nat): (r: InsertResult)
    requires ValidRoot(root, h) && key < TOP
  {
    PreparedValid(root, h, id);
    InsertNode(PreparedRoot(root, id), key, val, id, PreparedHeight(root, h), 0, TOP)
  }

  /** The map a tree stands for. */
  ghost function Contents(t: Tree): map<Key, Value> {
    map k | k in Keys(t) && Find(t, k).Some? :: Find(t, k).value
  }

  lemma ContentsFind(t: Tree, h: nat, k: Key)
    requires ValidRoot(t, h)
    ensures Find(t, k) == if k in Contents(t) then Some(Contents(t)[k]) else None
    ensures k in Contents(t) <==> k in Keys(t)
    ensures k in Contents(t) ==> k < TOP
  {
    if t.children != [] {
      FindsKeys(t, h, 0, TOP, k);
      if k in Keys(t) { KeysInRange(t, h, 0, TOP, k); }
    }
  }

  /** Insertion refines the insertion into a map; a known key keeps its value and is reported with its slot. */
  lemma InsertRefines(root: Tree, key: Key, val: Value, id: nat, h: nat)
    requires ValidRoot(root, h) && key < TOP
    ensures var r := Insert(root, key, val, id, h);
      && ValidRoot(r.tree, PreparedHeight(root, h)) && (r.inserted <==> key !in Contents(root))
      && Contents(r.tree) == (if key in Contents(root) then Contents(root) else Contents(root)[key := val])
      && Slot(r.tree, key) == Some(r.place)
  {
    hide Valid, Find, Contents, PreparedRoot, Full, Keys;
    PreparedValid(root, h, id);
    var p, h' := PreparedRoot(root, id), PreparedHeight(root, h);
    InsertNodeCorrect(p, key, val, id, h', 0, TOP);
    var r := Insert(root, key, val, id, h);
    ContentsFind(root, h, key);
    ContentsUpdate(root, h, r.tree, h', key, val);
  }

  lemma ContentsUpdate(t: Tree, h: nat, t': Tree, h': nat, key: Key, val: Value)
    requires ValidRoot(t, h) && ValidRoot(t', h')
    requires forall k: nat :: Find(t', k) == if k == key && Find(t, key) == None then Some(val) else Find(t, k)
    ensures Contents(t') == if key in Contents(t) then Contents(t) else Contents(t)[key := val]
  {
    hide ValidRoot, Find, Contents;
    ContentsFind(t, h, key);
    forall k: nat ensures Find(t', k) == if k in Contents(t') then Some(Contents(t')[k]) else None { ContentsFind(t', h', k); }
    forall k: nat ensures Find(t, k) == if k in Contents(t) then Some(Contents(t)[k]) else None { ContentsFind(t, h, k); }
    var after := if key in Contents(t) then Contents(t) else Contents(t)[key := val];
    forall k: nat ensures k in Contents(t') <==> k in after { }
    forall k: nat | k in after ensures Contents(t')[k] == after[k] { }
  }
}
