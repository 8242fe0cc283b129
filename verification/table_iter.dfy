/** The strided iteration over the blocks of a table, and the partition of the blocks among threads. */
module TableIters {
  import opened Options
  import opened BTrees
  import opened BTreeLeaves
  import opened BTreeMap

  const WORD: nat := 0x1_0000_0000

  /** The thread to which a block belongs. */
  function BlockOffset(block: nat, chunkSize: nat, stride: nat): nat
    requires chunkSize > 0 && stride > 0
  {
    block / chunkSize % stride
  }

  /** The iterator's test, in 32-bit arithmetic. */
  predicate IsSelected(block: nat, chunkSize: nat, offset: nat, stride: nat)
    requires chunkSize > 0 && stride > 0
  {
    (block / chunkSize + (stride - offset) % WORD) % WORD % stride == 0
  }

  lemma Multiple(m: int, s: int)
    requires s > 0
    ensures m >= 1 ==> m * s >= s
    ensures m <= -1 ==> m * s <= -s
  {
    if m >= 1 { assert (m - 1) * s == m * s - s; } else if m <= -1 { assert (m + 1) * s == m * s + s; }
  }

  lemma DivisibleIsZero(d: int, s: int, m: int)
    requires s > 0 && -s < d < s && d == m * s
    ensures d == 0
  {
    Multiple(m, s);
  }

  lemma ShiftedRemainder(q: nat, s: nat, o: nat)
    requires o < s
    ensures (q + (s - o)) % s == 0 <==> q % s == o
  {
    var a, r := q / s, q % s;
    assert q == a * s + r;
    var x := q + (s - o);
    assert x == (a + 1) * s + (r - o) by { assert (a + 1) * s == a * s + s; }
    var b, z := x / s, x % s;
    assert x == b * s + z;
    if z == 0 {
      assert r - o == (b - (a + 1)) * s by { assert (b - (a + 1)) * s == b * s - (a + 1) * s; }
      DivisibleIsZero(r - o, s, b - (a + 1));
    }
    if r == o {
      assert z == (a + 1 - b) * s by { assert (a + 1 - b) * s == (a + 1) * s - b * s; }
      DivisibleIsZero(z, s, a + 1 - b);
    }
  }

  lemma NoWrap(x: int)
    requires 0 <= x < WORD
    ensures x % WORD == x
  {
  }

  lemma SelectedQuotient(q: nat, offset: nat, stride: nat)
    requires offset < stride && q + stride < WORD
    ensures (q + (stride - offset) % WORD) % WORD % stride == 0 <==> q % stride == offset
  {
    NoWrap(stride - offset);
    NoWrap(q + (stride - offset));
    ShiftedRemainder(q, stride, offset);
  }

  /** As long as the sum does not wrap around, the test selects exactly the blocks of the thread. */
  lemma SelectedIsOffset(block: nat, chunkSize: nat, offset: nat, stride: nat)
    requires chunkSize > 0 && offset < stride && block / chunkSize + stride < WORD
    ensures IsSelected(block, chunkSize, offset, stride) <==> BlockOffset(block, chunkSize, stride) == offset
  {
    SelectedQuotient(block / chunkSize, offset, stride);
  }

  /** Chunks of `chunkSize` consecutive blocks go round the threads in turn, from the first thread on. */
  lemma ChunksGoRound(block: nat, chunkSize: nat, stride: nat)
    requires chunkSize > 0 && stride > 0
    ensures block < chunkSize ==> BlockOffset(block, chunkSize, stride) == 0
    ensures BlockOffset(block + chunkSize, chunkSize, stride) == (BlockOffset(block, chunkSize, stride) + 1) % stride
  {
    var q, r := block / chunkSize, block % chunkSize;
    assert block == q * chunkSize + r;
    assert block + chunkSize == (q + 1) * chunkSize + r by { assert (q + 1) * chunkSize == q * chunkSize + chunkSize; }
    QuotientIs(block + chunkSize, q + 1, r, chunkSize);
    if block < chunkSize { QuotientIs(block, 0, block, chunkSize); }
    NextRemainder(q, stride);
  }

  lemma QuotientIs(a: nat, q: nat, r: nat, b: nat)
    requires a == q * b + r && r < b
    ensures a / b == q
  {
    var x, y := a / b, a % b;
    assert a == x * b + y;
    assert (x - q) * b == r - y by { assert (x - q) * b == x * b - q * b; }
    Multiple(x - q, b);
  }

  lemma NextRemainder(q: nat, s: nat)
    requires s > 0
    ensures (q + 1) % s == (q % s + 1) % s
  {
    var a, r := q / s, q % s;
    assert q == a * s + r;
    if r + 1 < s {
      RemainderIs(q + 1, a, r + 1, s);
      RemainderIs(r + 1, 0, r + 1, s);
    } else {
      assert (a + 1) * s == a * s + s;
      RemainderIs(q + 1, a + 1, 0, s);
      RemainderIs(s, 1, 0, s);
    }
  }

  lemma RemainderIs(a: nat, q: nat, r: nat, b: nat)
    requires a == q * b + r && r < b
    ensures a % b == r
  {
    QuotientIs(a, q, r, b);
  }

  /** Ids are 32-bit and blocks hold 256 of them, so there is room for any stride up to 2^32 - 2^24. */
  lemma BlocksAreSmall(id: nat, chunkSize: nat, stride: nat)
    requires id < WORD && chunkSize > 0 && stride <= WORD - 0x100_0000
    ensures id / 256 / chunkSize + stride < WORD
  {
    assert id / 256 < 0x100_0000;
    Quotient(id / 256, chunkSize);
  }

  lemma Quotient(a: nat, b: nat)
    requires b > 0
    ensures a / b <= a
  {
    var q := a / b;
    assert a == b * q + a % b;
    assert (b - 1) * q == b * q - q;
    if b - 1 >= 1 && q >= 1 { Multiple(b - 1, q); }
  }

  // ---- the selected entries

  function Selected(es: seq<(Key, Value)>, chunkSize: nat, offset: nat, stride: nat): seq<(Key, Value)>
    requires chunkSize > 0 && stride > 0
  {
    if es == [] then []
    else (if IsSelected(es[0].0, chunkSize, offset, stride) then [es[0]] else []) + Selected(es[1..], chunkSize, offset, stride)
  }

  lemma {:induction false} SelectedMembers(es: seq<(Key, Value)>, chunkSize: nat, offset: nat, stride: nat, e: (Key, Value))
    requires chunkSize > 0 && stride > 0
    ensures e in Selected(es, chunkSize, offset, stride) <==> e in es && IsSelected(e.0, chunkSize, offset, stride)
  {
    hide IsSelected;
    if es != [] { SelectedMembers(es[1..], chunkSize, offset, stride, e); }
  }

  lemma {:induction false} SelectedAscends(es: seq<(Key, Value)>, chunkSize: nat, offset: nat, stride: nat, lo: nat, hi: nat)
    requires chunkSize > 0 && stride > 0 && Ascending(es, lo, hi)
    ensures Ascending(Selected(es, chunkSize, offset, stride), lo, hi)
  {
    hide IsSelected, Selected, Ascending;
    if es == [] {
      NoneSelected(es, chunkSize, offset, stride);
    } else {
      var rest := Selected(es[1..], chunkSize, offset, stride);
      TailAscends(es, lo, hi);
      SelectedAscends(es[1..], chunkSize, offset, stride, lo, hi);
      SelectedStep(es, chunkSize, offset, stride);
      forall j | 0 <= j < |rest| ensures es[0].0 < rest[j].0 {
        SelectedMembers(es[1..], chunkSize, offset, stride, rest[j]);
        HeadBelow(es, lo, hi, rest[j]);
      }
      ConsAscends(es[0], rest, lo, hi);
      assert [] + rest == rest;
    }
  }

  lemma NoneSelected(es: seq<(Key, Value)>, chunkSize: nat, offset: nat, stride: nat)
    requires chunkSize > 0 && stride > 0 && es == []
    ensures Selected(es, chunkSize, offset, stride) == es
  {
  }

  lemma TailAscends(es: seq<(Key, Value)>, lo: nat, hi: nat)
    requires Ascending(es, lo, hi) && es != []
    ensures Ascending(es[1..], lo, hi) && lo <= es[0].0 < hi
  {
  }

  lemma HeadBelow(es: seq<(Key, Value)>, lo: nat, hi: nat, e: (Key, Value))
    requires Ascending(es, lo, hi) && es != [] && e in es[1..]
    ensures es[0].0 < e.0
  {
  }

  lemma ConsAscends(e: (Key, Value), rest: seq<(Key, Value)>, lo: nat, hi: nat)
    requires Ascending(rest, lo, hi) && lo <= e.0 < hi && forall j :: 0 <= j < |rest| ==> e.0 < rest[j].0
    ensures Ascending([e] + rest, lo, hi)
  {
  }

  /** Every block is seen by exactly one of the threads, the one its offset names. */
  lemma ThreadsPartition(es: seq<(Key, Value)>, chunkSize: nat, stride: nat, e: (Key, Value), offset: nat)
    requires chunkSize > 0 && offset < stride && e in es && e.0 / chunkSize + stride < WORD
    ensures e in Selected(es, chunkSize, offset, stride) <==> offset == BlockOffset(e.0, chunkSize, stride)
  {
    SelectedMembers(es, chunkSize, offset, stride, e);
    SelectedIsOffset(e.0, chunkSize, offset, stride);
  }

  lemma SelectedStep(es: seq<(Key, Value)>, chunkSize: nat, offset: nat, stride: nat)
    requires chunkSize > 0 && stride > 0 && es != []
    ensures Selected(es, chunkSize, offset, stride)
            == (if IsSelected(es[0].0, chunkSize, offset, stride) then [es[0]] else []) + Selected(es[1..], chunkSize, offset, stride)
  {
  }

  class TableIter {
    const blocks: Iterator
    const chunkSize: nat
    const offset: nat
    const stride: nat
    /** The block found by the last test for more. */
    var found: Option<(Key, Value)>

    ghost predicate Valid()
      reads this, blocks, blocks.tree
    {
      blocks.Valid() && chunkSize > 0 && stride > 0
    }

    /** The blocks still to come for this thread. */
    ghost function Remaining(): seq<(Key, Value)>
      requires Valid()
      reads this, blocks, blocks.tree
    {
      (if found.Some? then [found.value] else []) + Selected(blocks.Remaining(), chunkSize, offset, stride)
    }

    constructor (table: BTree, chunkSize: nat, offset: nat, stride: nat)
      requires table.Valid() && table.insertOnly && chunkSize > 0 && stride > 0
      ensures Valid() && fresh(blocks) && blocks.tree == table
      ensures this.chunkSize == chunkSize && this.offset == offset && this.stride == stride
      ensures Remaining() == Selected(Entries(Leaves(table.root)), chunkSize, offset, stride)
    {
      this.blocks := new Iterator(table);
      this.chunkSize, this.offset, this.stride := chunkSize, offset, stride;
      found := None;
    }

    method HasNext() returns (r: bool)
      requires Valid()
      modifies this, blocks
      ensures Valid() && (r <==> Remaining() != []) && (r ==> found.Some?)
      ensures Remaining() == old(Remaining())
    {
      hide Iterator.Valid, Iterator.Remaining, IsSelected;
      var more := blocks.HasNext();
      while more && found.None?
        invariant Valid() && Remaining() == old(Remaining()) && (more <==> blocks.Remaining() != [])
        decreases |blocks.Remaining()|, found.None?
      {
        SelectedStep(blocks.Remaining(), chunkSize, offset, stride);
        var entry := blocks.Next();
        if IsSelected(entry.value.0, chunkSize, offset, stride) {
          found := entry;
          break;
        }
        more := blocks.HasNext();
      }
      r := found.Some?;
    }

    /** The next block of this thread; none when there is no more. */
    method Next() returns (block: Option<(Key, Value)>)
      requires Valid()
      modifies this, blocks
      ensures Valid()
      ensures old(Remaining()) == [] ==> block == None && Remaining() == []
      ensures old(Remaining()) != [] ==> block == Some(old(Remaining())[0]) && Remaining() == old(Remaining())[1..]
    {
      hide Iterator.Valid, Iterator.Remaining, IsSelected;
      if found.Some? {
        block := found;
        found := None;
        return;
      }
      ghost var all := Remaining();
      if blocks.Remaining() != [] { SelectedStep(blocks.Remaining(), chunkSize, offset, stride); }
      block := blocks.Next();
      while block.Some? && !IsSelected(block.value.0, chunkSize, offset, stride)
        invariant Valid() && found.None?
        invariant block.None? ==> all == [] && blocks.Remaining() == []
        invariant block.Some? ==>
          all == (if IsSelected(block.value.0, chunkSize, offset, stride) then [block.value] else []) + Remaining()
        decreases |blocks.Remaining()|, block.Some?
      {
        if blocks.Remaining() != [] { SelectedStep(blocks.Remaining(), chunkSize, offset, stride); }
        block := blocks.Next();
      }
    }
  }
}
