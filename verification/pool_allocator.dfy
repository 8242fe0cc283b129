/** The pool allocator: equal blocks cut from pages, with the free list kept inside the freed blocks. */
module PoolAllocator {

  const MIN_ALIGNMENT: nat := 64
  const HEADER: nat := 8
  const NULL: nat := 0

  /** The memory word at an address. */
  function Word(memory: map<nat, nat>, a: nat): nat { if a in memory then memory[a] else 0 }

  function Max(a: nat, b: nat): nat { if a > b then a else b }

  /** The distance between blocks: the block size rounded up to the alignment. */
  function GrowOffset(blockSize: nat, alignment: nat): nat
    requires alignment > 0
  {
    (Max(HEADER, blockSize) + alignment - 1) / alignment * alignment
  }

  lemma GrowOffsetFits(blockSize: nat, alignment: nat)
    requires alignment > 0
    ensures GrowOffset(blockSize, alignment) % alignment == 0
    ensures Max(HEADER, blockSize) <= GrowOffset(blockSize, alignment) < Max(HEADER, blockSize) + alignment
  {
    var x := Max(HEADER, blockSize) + alignment - 1;
    var q := x / alignment;
    assert x == alignment * q + x % alignment;
    MultipleMod(q, alignment);
  }

  lemma MultipleMod(q: nat, m: nat)
    requires m > 0
    ensures q * m % m == 0
  {
    var r, d := q * m % m, q * m / m;
    assert q * m == d * m + r;
    assert r == (q - d) * m by { assert (q - d) * m == q * m - d * m; }
    SmallMultiple(q - d, m);
  }

  lemma SmallMultiple(k: int, m: nat)
    requires m > 0 && 0 <= k * m < m
    ensures k == 0
  {
    assert k >= 1 ==> k * m >= m by { if k >= 1 { Step(k, m, 0); } }
    assert k <= -1 ==> k * m < 0;
  }

  /** Sizes fixed when the allocator is set up. */
  datatype Layout = Layout(alignment: nat, blockSize: nat, pageSize: nat, grow: nat)

  predicate LayoutOk(l: Layout) {
    && l.alignment > 0 && l.grow % l.alignment == 0 && l.blockSize >= HEADER && l.grow >= l.blockSize
    && l.grow + l.blockSize <= l.pageSize
  }

  /** Block `k` of page `c`; block 0 is the page's header. */
  function Slot(l: Layout, c: nat, k: nat): nat { c + k * l.grow }

  predicate IsBlock(l: Layout, c: nat, k: nat) {
    k >= 1 && k * l.grow + l.blockSize <= l.pageSize
  }

  predicate Disjoint(a: nat, n: nat, b: nat, m: nat) { a + n <= b || b + m <= a }

  ghost predicate PagesOk(l: Layout, chunks: seq<nat>) {
    && l.alignment > 0
    && (forall i :: 0 <= i < |chunks| ==> chunks[i] != NULL && chunks[i] % l.alignment == 0)
    && (forall i, j :: 0 <= i < j < |chunks| ==> Disjoint(chunks[i], l.pageSize, chunks[j], l.pageSize))
  }

  /** The address was cut from page `c` and has been handed out. */
  ghost predicate HandedOut(l: Layout, chunks: seq<nat>, nextFree: nat, a: nat) {
    exists i: nat, k: nat {:trigger Slot(l, chunks[i], k)} :: i < |chunks| && IsBlock(l, chunks[i], k) && a == Slot(l, chunks[i], k)
      && (i == |chunks| - 1 ==> k * l.grow < nextFree)
  }

  lemma SlotsApart(l: Layout, c: nat, k: nat, j: nat)
    requires LayoutOk(l) && k != j
    ensures Disjoint(Slot(l, c, k), l.blockSize, Slot(l, c, j), l.blockSize)
  {
    if k < j { Step(j - k, l.grow, k); } else { Step(k - j, l.grow, j); }
  }

  lemma Step(d: nat, grow: nat, k: nat)
    requires d >= 1
    ensures (k + d) * grow >= k * grow + grow
  {
    assert (k + d) * grow == k * grow + d * grow;
    assert (d - 1) * grow == d * grow - grow;
  }

  lemma InPage(l: Layout, c: nat, k: nat)
    requires LayoutOk(l) && IsBlock(l, c, k)
    ensures c + HEADER <= Slot(l, c, k) && Slot(l, c, k) + l.blockSize <= c + l.pageSize
  {
    Step(k, l.grow, 0);
  }

  /** Different handed-out addresses are blocks that do not overlap. */
  lemma HandedOutApart(l: Layout, chunks: seq<nat>, nextFree: nat, a: nat, b: nat)
    requires LayoutOk(l) && PagesOk(l, chunks) && HandedOut(l, chunks, nextFree, a) && HandedOut(l, chunks, nextFree, b) && a != b
    ensures Disjoint(a, l.blockSize, b, l.blockSize)
  {
    var i: nat, k: nat :| i < |chunks| && IsBlock(l, chunks[i], k) && a == Slot(l, chunks[i], k);
    var j: nat, m: nat :| j < |chunks| && IsBlock(l, chunks[j], m) && b == Slot(l, chunks[j], m);
    hide Slot, IsBlock;
    if i == j {
      SlotsApart(l, chunks[i], k, m);
    } else {
      InPage(l, chunks[i], k);
      InPage(l, chunks[j], m);
      if i < j { assert Disjoint(chunks[i], l.pageSize, chunks[j], l.pageSize); }
      if j < i { assert Disjoint(chunks[j], l.pageSize, chunks[i], l.pageSize); }
    }
  }

  /** A handed-out block is aligned and lies in a page, past its header. */
  lemma HandedOutInside(l: Layout, chunks: seq<nat>, nextFree: nat, a: nat)
    requires LayoutOk(l) && PagesOk(l, chunks) && HandedOut(l, chunks, nextFree, a)
    ensures a % l.alignment == 0 && a != NULL
    ensures exists i :: 0 <= i < |chunks| && chunks[i] + HEADER <= a && a + l.blockSize <= chunks[i] + l.pageSize
  {
    var i: nat, k: nat :| i < |chunks| && IsBlock(l, chunks[i], k) && a == Slot(l, chunks[i], k);
    Step(k, l.grow, 0);
    AlignedSum(chunks[i], l.grow, k, l.alignment);
  }

  lemma AlignedSum(c: nat, grow: nat, k: nat, m: nat)
    requires m > 0 && c % m == 0 && grow % m == 0
    ensures (c + k * grow) % m == 0
  {
    var x, y := c / m, grow / m;
    assert c == x * m && grow == y * m;
    assert k * grow == (k * y) * m by { assert k * (y * m) == (k * y) * m; }
    assert c + k * grow == (x + k * y) * m by { assert (x + k * y) * m == x * m + (k * y) * m; }
    MultipleMod(x + k * y, m);
  }

  /** The headers of the pages overlap no block. */
  lemma HeadersApart(l: Layout, chunks: seq<nat>, nextFree: nat, a: nat, i: nat)
    requires LayoutOk(l) && PagesOk(l, chunks) && HandedOut(l, chunks, nextFree, a) && i < |chunks|
    ensures Disjoint(chunks[i], HEADER, a, l.blockSize)
  {
    var j: nat, k: nat :| j < |chunks| && IsBlock(l, chunks[j], k) && a == Slot(l, chunks[j], k);
    Step(k, l.grow, 0);
    if i < j { assert Disjoint(chunks[i], l.pageSize, chunks[j], l.pageSize); }
    if j < i { assert Disjoint(chunks[j], l.pageSize, chunks[i], l.pageSize); }
  }

  // ---- lists kept in memory

  /** Following the words from `first` visits `list` and ends with null. */
  ghost predicate ListIn(memory: map<nat, nat>, first: nat, list: seq<nat>)
    decreases |list|
  {
    if list == [] then first == NULL
    else first == list[0] && first != NULL && ListIn(memory, Word(memory, first), list[1..])
  }

  lemma {:induction false} ListStays(memory: map<nat, nat>, memory': map<nat, nat>, first: nat, list: seq<nat>)
    requires ListIn(memory, first, list) && forall a :: a in list ==> Word(memory', a) == Word(memory, a)
    ensures ListIn(memory', first, list)
    decreases |list|
  {
    if list != [] { ListStays(memory, memory', Word(memory, first), list[1..]); }
  }

  lemma {:induction false} ListGrows(memory: map<nat, nat>, first: nat, list: seq<nat>, a: nat)
    requires ListIn(memory, first, list) && list != [] && a != NULL && a !in list
    requires forall i, j :: 0 <= i < j < |list| ==> list[i] != list[j]
    ensures ListIn(memory[list[|list| - 1] := a][a := NULL], first, list + [a])
    decreases |list|
  {
    var memory' := memory[list[|list| - 1] := a][a := NULL];
    if |list| == 1 {
      assert list + [a] == [list[0], a];
      assert (list + [a])[1..] == [a] && [a][1..] == [];
      assert ListIn(memory', NULL, []) && ListIn(memory', a, [a]);
    } else {
      var rest := list[1..];
      ListGrows(memory, Word(memory, first), rest, a);
      assert rest[|rest| - 1] == list[|list| - 1];
      assert (list + [a])[1..] == rest + [a];
      assert list[0] != list[|list| - 1];
    }
  }

  // ---- the state, as values

  /** The pages, linked through their headers; `nextFree` is the offset of the next uncut block of the last one. */
  ghost predicate Pages(l: Layout, memory: map<nat, nat>, firstChunk: nat, lastChunk: nat, nextFree: nat, chunks: seq<nat>) {
    && LayoutOk(l) && PagesOk(l, chunks) && ListIn(memory, firstChunk, chunks)
    && (chunks != [] ==> lastChunk == chunks[|chunks| - 1] && exists m: nat :: m >= 1 && nextFree == m * l.grow)
  }

  /**
   * The blocks: those in use, and those on the free list, which is linked through their first words. No block that was
   * cut is lost.
   */
  ghost predicate Blocks(l: Layout, memory: map<nat, nat>, nextFree: nat, firstFree: nat, chunks: seq<nat>, free: seq<nat>, live: set<nat>) {
    && ListIn(memory, firstFree, free)
    && (forall i, j :: 0 <= i < j < |free| ==> free[i] != free[j])
    && (forall a :: a in free ==> a !in live && HandedOut(l, chunks, nextFree, a))
    && (forall a :: a in live ==> HandedOut(l, chunks, nextFree, a))
    && (forall a :: HandedOut(l, chunks, nextFree, a) ==> a in live || a in free)
  }

  ghost predicate FreshPage(l: Layout, chunks: seq<nat>, page: nat) {
    && l.alignment > 0 && page != NULL && page % l.alignment == 0
    && forall i :: 0 <= i < |chunks| ==> Disjoint(chunks[i], l.pageSize, page, l.pageSize)
  }

  lemma NoBlocksWithoutPages(l: Layout, memory: map<nat, nat>, nextFree: nat, firstFree: nat, free: seq<nat>, live: set<nat>)
    requires Blocks(l, memory, nextFree, firstFree, [], free, live)
    ensures free == [] && live == {} && firstFree == NULL
  {
    forall a: nat ensures !HandedOut(l, [], nextFree, a) { }
    hide HandedOut;
    if free != [] { var a := AnyOf(free); }
  }

  lemma AnyOf(s: seq<nat>) returns (a: nat)
    requires s != []
    ensures a in s
  {
    a := s[0];
  }

  lemma FirstPage(l: Layout, memory: map<nat, nat>, lastChunk: nat, nextFree: nat, firstFree: nat, free: seq<nat>, live: set<nat>, page: nat)
    requires Pages(l, memory, NULL, lastChunk, nextFree, []) && Blocks(l, memory, nextFree, firstFree, [], free, live)
    requires FreshPage(l, [], page)
    ensures Pages(l, memory[page := NULL], page, page, l.grow, [page])
    ensures Blocks(l, memory[page := NULL], l.grow, firstFree, [page], free, live)
  {
    NoBlocksWithoutPages(l, memory, nextFree, firstFree, free, live);
    assert [page][1..] == [] && l.grow == 1 * l.grow;
    assert ListIn(memory[page := NULL], NULL, []);
    NothingYet(l, page);
  }

  /** Blocks handed out so far stay so when a page is added. */
  lemma OlderPages(l: Layout, chunks: seq<nat>, nextFree: nat, page: nat, nextFree': nat, a: nat)
    requires HandedOut(l, chunks, nextFree, a)
    ensures HandedOut(l, chunks + [page], nextFree', a)
  {
    var i: nat, k: nat :| i < |chunks| && IsBlock(l, chunks[i], k) && a == Slot(l, chunks[i], k);
    assert (chunks + [page])[i] == chunks[i];
    assert a == Slot(l, (chunks + [page])[i], k);
  }

  lemma NothingYet(l: Layout, page: nat)
    requires LayoutOk(l)
    ensures forall a: nat :: !HandedOut(l, [page], l.grow, a)
  {
    forall k: nat | k >= 1 ensures k * l.grow >= l.grow { Step(k, l.grow, 0); }
  }

  /** On a page that has just been taken nothing is cut, and its predecessors are full. */
  lemma NothingCut(l: Layout, chunks: seq<nat>, nextFree: nat, a: nat)
    requires LayoutOk(l) && chunks != [] && nextFree + l.blockSize > l.pageSize && HandedOut(l, chunks, l.grow, a)
    ensures HandedOut(l, chunks[..|chunks| - 1], nextFree, a)
  {
    var i: nat, k: nat :| i < |chunks| && IsBlock(l, chunks[i], k) && a == Slot(l, chunks[i], k)
      && (i == |chunks| - 1 ==> k * l.grow < l.grow);
    if i == |chunks| - 1 { Step(k, l.grow, 0); }
    assert chunks[..|chunks| - 1][i] == chunks[i];
    assert a == Slot(l, chunks[..|chunks| - 1][i], k);
  }

  lemma FurtherOn(l: Layout, chunks: seq<nat>, nextFree: nat, nextFree': nat, a: nat)
    requires HandedOut(l, chunks, nextFree, a) && nextFree <= nextFree'
    ensures HandedOut(l, chunks, nextFree', a)
  {
  }

  /** A page's header is the first word of no block. */
  lemma HeaderIsNoBlock(l: Layout, chunks: seq<nat>, nextFree: nat, a: nat, i: nat)
    requires LayoutOk(l) && PagesOk(l, chunks) && HandedOut(l, chunks, nextFree, a) && i < |chunks|
    ensures a != chunks[i]
  {
    HeadersApart(l, chunks, nextFree, a, i);
  }

  lemma FreshIsNoBlock(l: Layout, chunks: seq<nat>, nextFree: nat, a: nat, page: nat)
    requires LayoutOk(l) && PagesOk(l, chunks) && HandedOut(l, chunks, nextFree, a) && FreshPage(l, chunks, page)
    ensures a != page
  {
    HandedOutInside(l, chunks, nextFree, a);
  }

  lemma NextPage(l: Layout, memory: map<nat, nat>, firstChunk: nat, lastChunk: nat, nextFree: nat, firstFree: nat, chunks: seq<nat>,
                 free: seq<nat>, live: set<nat>, page: nat)
    requires Pages(l, memory, firstChunk, lastChunk, nextFree, chunks) && Blocks(l, memory, nextFree, firstFree, chunks, free, live)
    requires FreshPage(l, chunks, page) && chunks != [] && nextFree + l.blockSize > l.pageSize
    ensures Pages(l, memory[lastChunk := page][page := NULL], firstChunk, page, l.grow, chunks + [page])
    ensures Blocks(l, memory[lastChunk := page][page := NULL], l.grow, firstFree, chunks + [page], free, live)
  {
    hide HandedOut, Slot, IsBlock;
    var memory' := memory[lastChunk := page][page := NULL];
    assert l.grow == 1 * l.grow;
    assert forall i, j :: 0 <= i < j < |chunks| ==> Disjoint(chunks[i], l.pageSize, chunks[j], l.pageSize);
    ListGrows(memory, firstChunk, chunks, page);
    forall a | a in free || a in live ensures HandedOut(l, chunks + [page], l.grow, a) {
      OlderPages(l, chunks, nextFree, page, l.grow, a);
    }
    assert (chunks + [page])[..|chunks|] == chunks;
    forall a | HandedOut(l, chunks + [page], l.grow, a) ensures a in live || a in free {
      NothingCut(l, chunks + [page], nextFree, a);
    }
    forall a | a in free ensures Word(memory', a) == Word(memory, a) {
      HeaderIsNoBlock(l, chunks, nextFree, a, |chunks| - 1);
      FreshIsNoBlock(l, chunks, nextFree, a, page);
    }
    ListStays(memory, memory', firstFree, free);
  }

  /** The next uncut block is new, and cutting it keeps everything else. */
  lemma TakeSlot(l: Layout, memory: map<nat, nat>, firstChunk: nat, lastChunk: nat, nextFree: nat, firstFree: nat, chunks: seq<nat>,
                 free: seq<nat>, live: set<nat>)
    requires Pages(l, memory, firstChunk, lastChunk, nextFree, chunks) && Blocks(l, memory, nextFree, firstFree, chunks, free, live)
    requires chunks != [] && nextFree + l.blockSize <= l.pageSize
    ensures lastChunk + nextFree !in live
    ensures Pages(l, memory, firstChunk, lastChunk, nextFree + l.grow, chunks)
    ensures Blocks(l, memory, nextFree + l.grow, firstFree, chunks, free, live + {lastChunk + nextFree})
  {
    var m: nat :| m >= 1 && nextFree == m * l.grow;
    assert nextFree + l.grow == (m + 1) * l.grow;
    var a, last := lastChunk + nextFree, |chunks| - 1;
    assert a == Slot(l, chunks[last], m) && IsBlock(l, chunks[last], m);
    forall b | b in free || b in live ensures b != a && HandedOut(l, chunks, nextFree + l.grow, b) {
      FurtherOn(l, chunks, nextFree, nextFree + l.grow, b);
      NotYetCut(l, chunks, nextFree, m, b);
    }
    forall b | HandedOut(l, chunks, nextFree + l.grow, b) ensures b == a || HandedOut(l, chunks, nextFree, b) {
      OneCut(l, chunks, nextFree, m, b);
    }
  }

  lemma OneCut(l: Layout, chunks: seq<nat>, nextFree: nat, m: nat, b: nat)
    requires LayoutOk(l) && chunks != [] && nextFree == m * l.grow && HandedOut(l, chunks, nextFree + l.grow, b)
    ensures b == chunks[|chunks| - 1] + nextFree || HandedOut(l, chunks, nextFree, b)
  {
    var i: nat, k: nat :| i < |chunks| && IsBlock(l, chunks[i], k) && b == Slot(l, chunks[i], k)
      && (i == |chunks| - 1 ==> k * l.grow < nextFree + l.grow);
    if i == |chunks| - 1 {
      if k > m { Step(k - m, l.grow, m); }
      if k < m { Step(m - k, l.grow, k); }
    }
  }

  lemma NotYetCut(l: Layout, chunks: seq<nat>, nextFree: nat, m: nat, b: nat)
    requires LayoutOk(l) && PagesOk(l, chunks) && HandedOut(l, chunks, nextFree, b) && chunks != []
    requires m >= 1 && nextFree == m * l.grow && nextFree + l.blockSize <= l.pageSize
    ensures b != chunks[|chunks| - 1] + nextFree
  {
    var i: nat, k: nat :| i < |chunks| && IsBlock(l, chunks[i], k) && b == Slot(l, chunks[i], k)
      && (i == |chunks| - 1 ==> k * l.grow < nextFree);
    if i < |chunks| - 1 { assert Disjoint(chunks[i], l.pageSize, chunks[|chunks| - 1], l.pageSize); }
  }

  lemma PopFree(l: Layout, memory: map<nat, nat>, nextFree: nat, firstFree: nat, chunks: seq<nat>, free: seq<nat>, live: set<nat>)
    requires Blocks(l, memory, nextFree, firstFree, chunks, free, live) && firstFree != NULL
    ensures free != [] && free[0] == firstFree && firstFree !in live
    ensures Blocks(l, memory, nextFree, Word(memory, firstFree), chunks, free[1..], live + {firstFree})
  {
    hide HandedOut;
  }

  lemma PushFree(l: Layout, memory: map<nat, nat>, firstChunk: nat, lastChunk: nat, nextFree: nat, firstFree: nat, chunks: seq<nat>,
                 free: seq<nat>, live: set<nat>, a: nat)
    requires Pages(l, memory, firstChunk, lastChunk, nextFree, chunks) && Blocks(l, memory, nextFree, firstFree, chunks, free, live)
    requires a in live
    ensures Pages(l, memory[a := firstFree], firstChunk, lastChunk, nextFree, chunks)
    ensures Blocks(l, memory[a := firstFree], nextFree, a, chunks, [a] + free, live - {a})
  {
    hide HandedOut, Slot, IsBlock;
    var memory' := memory[a := firstFree];
    HandedOutInside(l, chunks, nextFree, a);
    forall c | c in chunks ensures Word(memory', c) == Word(memory, c) {
      var i :| 0 <= i < |chunks| && chunks[i] == c;
      HeaderIsNoBlock(l, chunks, nextFree, a, i);
    }
    ListStays(memory, memory', firstChunk, chunks);
    ListStays(memory, memory', firstFree, free);
    assert ([a] + free)[1..] == free;
  }

  /** Whatever the owners of the blocks in use store in them, every other word stays. */
  ghost predicate WritesOnly(l: Layout, memory: map<nat, nat>, memory': map<nat, nat>, live: set<nat>) {
    forall w: nat :: (forall a :: a in live ==> Disjoint(w, HEADER, a, l.blockSize)) ==> Word(memory', w) == Word(memory, w)
  }

  /** Stores into blocks in use break neither list. */
  lemma UseKeepsLists(l: Layout, memory: map<nat, nat>, memory': map<nat, nat>, firstChunk: nat, lastChunk: nat, nextFree: nat,
                      firstFree: nat, chunks: seq<nat>, free: seq<nat>, live: set<nat>)
    requires Pages(l, memory, firstChunk, lastChunk, nextFree, chunks) && Blocks(l, memory, nextFree, firstFree, chunks, free, live)
    requires WritesOnly(l, memory, memory', live)
    ensures Pages(l, memory', firstChunk, lastChunk, nextFree, chunks) && Blocks(l, memory', nextFree, firstFree, chunks, free, live)
  {
    hide HandedOut, Slot, IsBlock;
    forall c | c in chunks ensures Word(memory', c) == Word(memory, c) {
      var i :| 0 <= i < |chunks| && chunks[i] == c;
      forall a | a in live ensures Disjoint(c, HEADER, a, l.blockSize) { HeadersApart(l, chunks, nextFree, a, i); }
    }
    forall f | f in free ensures Word(memory', f) == Word(memory, f) {
      forall a | a in live ensures Disjoint(f, HEADER, a, l.blockSize) { HandedOutApart(l, chunks, nextFree, f, a); }
    }
    ListStays(memory, memory', firstChunk, chunks);
    ListStays(memory, memory', firstFree, free);
  }

  class Pool {
    var layout: Layout
    var firstChunk: nat
    var lastChunk: nat
    var firstFree: nat
    var nextFree: nat
    /** The words of all pages; blocks in use belong to the caller. */
    var memory: map<nat, nat>
    ghost var chunks: seq<nat>
    ghost var free: seq<nat>
    ghost var live: set<nat>

    ghost predicate Valid()
      reads this
    {
      && Pages(layout, memory, firstChunk, lastChunk, nextFree, chunks)
      && Blocks(layout, memory, nextFree, firstFree, chunks, free, live)
    }

    constructor (alignment: nat, blockSize: nat, pageSize: nat)
      requires GrowOffset(blockSize, Max(alignment, MIN_ALIGNMENT)) + Max(HEADER, blockSize) <= pageSize
      ensures Valid() && live == {} && free == [] && chunks == []
      ensures layout.blockSize == Max(HEADER, blockSize) && layout.pageSize == pageSize
      ensures layout.alignment == Max(alignment, MIN_ALIGNMENT) && layout.grow % layout.alignment == 0
      ensures layout.blockSize <= layout.grow < layout.blockSize + layout.alignment
    {
      var minAlignment := Max(alignment, MIN_ALIGNMENT);
      var size := Max(HEADER, blockSize);
      GrowOffsetFits(blockSize, minAlignment);
      layout := Layout(minAlignment, size, pageSize, GrowOffset(blockSize, minAlignment));
      firstChunk, lastChunk, firstFree, nextFree := NULL, NULL, NULL, 0;
      memory, chunks, free, live := map[], [], [], {};
    }

    /** An address in use is aligned, in a page past its header, apart from the others and not on the free list. */
    lemma LiveBlock(a: nat)
      requires Valid() && a in live
      ensures a % layout.alignment == 0 && a !in free
      ensures exists i :: 0 <= i < |chunks| && chunks[i] + HEADER <= a && a + layout.blockSize <= chunks[i] + layout.pageSize
      ensures forall b :: b in live && b != a ==> Disjoint(a, layout.blockSize, b, layout.blockSize)
    {
      HandedOutInside(layout, chunks, nextFree, a);
      forall b | b in live && b != a ensures Disjoint(a, layout.blockSize, b, layout.blockSize) {
        HandedOutApart(layout, chunks, nextFree, a, b);
      }
    }

    /** The last page has room for another block. */
    predicate HasRoom()
      reads this`nextFree, this`layout
    {
      nextFree + layout.blockSize <= layout.pageSize
    }

    /**
     * A block that was not in use; `page` is what the parent allocator would give next. A freed block is used again
     * first, then the next one of the last page; only when that is full is a page taken.
     */
    method Alloc(page: nat) returns (ret: nat)
      requires Valid() && FreshPage(layout, chunks, page)
      modifies this
      ensures Valid() && ret !in old(live) && live == old(live) + {ret} && layout == old(layout)
      ensures old(free) != [] ==>
                ret == old(free)[0] && free == old(free)[1..] && chunks == old(chunks) && nextFree == old(nextFree)
      ensures old(free) == [] && old(chunks != [] && HasRoom()) ==>
                && free == [] && chunks == old(chunks)
                && ret == chunks[|chunks| - 1] + old(nextFree) && nextFree == old(nextFree) + layout.grow
      ensures old(free) == [] && !old(chunks != [] && HasRoom()) ==>
                free == [] && chunks == old(chunks) + [page] && ret == page + layout.grow && nextFree == 2 * layout.grow
    {
      hide Pages, Blocks, FreshPage;
      LayoutOf(layout, memory, firstChunk, lastChunk, nextFree, chunks);
      FreeListOf(layout, memory, nextFree, firstFree, chunks, free, live);
      if firstFree != NULL {
        PopFree(layout, memory, nextFree, firstFree, chunks, free, live);
        ret := firstFree;
        firstFree := Word(memory, firstFree);
        free, live := free[1..], live + {ret};
        return;
      }
      if firstChunk == NULL {
        FirstPage(layout, memory, lastChunk, nextFree, firstFree, free, live, page);
        firstChunk := page;
        memory := memory[page := NULL];
        nextFree := layout.grow;
        lastChunk := firstChunk;
        chunks := [page];
      } else if nextFree + layout.blockSize > layout.pageSize {
        NextPage(layout, memory, firstChunk, lastChunk, nextFree, firstFree, chunks, free, live, page);
        memory := memory[lastChunk := page];
        lastChunk := page;
        memory := memory[lastChunk := NULL];
        nextFree := layout.grow;
        chunks := chunks + [page];
      }
      TakeSlot(layout, memory, firstChunk, lastChunk, nextFree, firstFree, chunks, free, live);
      ret := lastChunk + nextFree;
      nextFree := nextFree + layout.grow;
      live := live + {ret};
    }

    /** No block is lost: whatever was cut from the pages is in use or waits on the free list. */
    lemma NothingLost(a: nat)
      requires Valid()
      ensures HandedOut(layout, chunks, nextFree, a) <==> a in live || a in free
      ensures a in live ==> a !in free
    {
    }

    /** Puts a block in use at the head of the free list. */
    method Free(a: nat)
      requires Valid() && a in live
      modifies this
      ensures Valid() && live == old(live) - {a} && free == [a] + old(free)
      ensures chunks == old(chunks) && nextFree == old(nextFree) && layout == old(layout)
    {
      hide Pages, Blocks;
      PushFree(layout, memory, firstChunk, lastChunk, nextFree, firstFree, chunks, free, live, a);
      memory := memory[a := firstFree];
      firstFree := a;
      free, live := [a] + free, live - {a};
    }

    /** The owners write their blocks. */
    method Use(memory': map<nat, nat>)
      requires Valid() && WritesOnly(layout, memory, memory', live)
      modifies this`memory
      ensures Valid() && memory == memory'
    {
      hide Pages, Blocks, WritesOnly;
      UseKeepsLists(layout, memory, memory', firstChunk, lastChunk, nextFree, firstFree, chunks, free, live);
      memory := memory';
    }

    /** Hands every page back to the parent, once and in order. */
    method Flush() returns (released: seq<nat>)
      requires Valid()
      ensures released == chunks
    {
      hide Blocks, LayoutOk, PagesOk;
      released := [];
      var next := firstChunk;
      ghost var left := chunks;
      while next != NULL
        invariant released + left == chunks && ListIn(memory, next, left)
        decreases |left|
      {
        var toRelease := next;
        next := Word(memory, next);
        released := released + [toRelease];
        left := left[1..];
      }
    }
  }

  lemma LayoutOf(l: Layout, memory: map<nat, nat>, firstChunk: nat, lastChunk: nat, nextFree: nat, chunks: seq<nat>)
    requires Pages(l, memory, firstChunk, lastChunk, nextFree, chunks)
    ensures LayoutOk(l) && (firstChunk == NULL <==> chunks == []) && (chunks != [] ==> lastChunk == chunks[|chunks| - 1])
  {
  }

  lemma FreeListOf(l: Layout, memory: map<nat, nat>, nextFree: nat, firstFree: nat, chunks: seq<nat>, free: seq<nat>, live: set<nat>)
    requires Blocks(l, memory, nextFree, firstFree, chunks, free, live)
    ensures firstFree == NULL <==> free == []
  {
  }
}
