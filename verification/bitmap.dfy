/** Fixed-size bitmaps over bytes, with a cached number of set bits. */
module Bitmaps {

  type Byte = bv8

  /** The byte with only bit `k` set: 1 shifted left by `k`. */
  function Bit(k: nat): Byte
    requires k < 8
  {
    if k == 0 then 1 else if k == 1 then 2 else if k == 2 then 4 else if k == 3 then 8
    else if k == 4 then 16 else if k == 5 then 32 else if k == 6 then 64 else 128
  }

  /** The lookup table of the number of ones in four bits. */
  function CountBits(nibble: Byte): nat {
    if nibble == 0 then 0 else if nibble == 1 then 1 else if nibble == 2 then 1 else if nibble == 3 then 2
    else if nibble == 4 then 1 else if nibble == 5 then 2 else if nibble == 6 then 2 else if nibble == 7 then 3
    else if nibble == 8 then 1 else if nibble == 9 then 2 else if nibble == 10 then 2 else if nibble == 11 then 3
    else if nibble == 12 then 2 else if nibble == 13 then 3 else if nibble == 14 then 3 else 4
  }

  predicate ReadBit(data: Byte, k: nat)
    requires k < 8
  {
    data & Bit(k) != 0
  }

  lemma OrBit(data: Byte, k: nat, j: nat)
    requires k < 8 && j < 8
    ensures ReadBit(data | Bit(k), j) <==> j == k || ReadBit(data, j)
    ensures data | Bit(k) != data <==> !ReadBit(data, k)
  {
  }

  lemma ClearBit(data: Byte, k: nat, j: nat)
    requires k < 8 && j < 8
    ensures ReadBit(data & !Bit(k), j) <==> j != k && ReadBit(data, j)
    ensures data & !Bit(k) != data <==> ReadBit(data, k)
  {
  }

  lemma AndBit(d: Byte, s: Byte, j: nat)
    requires j < 8
    ensures ReadBit(d & s, j) <==> ReadBit(d, j) && ReadBit(s, j)
  {
  }

  lemma UnionBit(d: Byte, s: Byte, j: nat)
    requires j < 8
    ensures ReadBit(d | s, j) <==> ReadBit(d, j) || ReadBit(s, j)
  {
  }

  /** `d & (d ^ s)` is the difference of `d` and `s`. */
  lemma DiffBit(d: Byte, s: Byte, j: nat)
    requires j < 8
    ensures ReadBit(d & (d ^ s), j) <==> ReadBit(d, j) && !ReadBit(s, j)
  {
  }

  lemma NotBit(d: Byte, j: nat)
    requires j < 8
    ensures ReadBit(!d, j) <==> !ReadBit(d, j)
  {
  }

  function One(b: bool): nat { if b then 1 else 0 }

  /** The two table lookups count the bits of a byte. */
  lemma NibblesCount(d: Byte)
    ensures CountBits(d >> 4) + CountBits(d & 0x0f)
            == One(ReadBit(d, 0)) + One(ReadBit(d, 1)) + One(ReadBit(d, 2)) + One(ReadBit(d, 3))
             + One(ReadBit(d, 4)) + One(ReadBit(d, 5)) + One(ReadBit(d, 6)) + One(ReadBit(d, 7))
  {
    LowNibble(d & 0x0f);
    LowNibble(d >> 4);
    assert (d & 0x0f) & 1 == d & 1 && (d & 0x0f) & 2 == d & 2 && (d & 0x0f) & 4 == d & 4 && (d & 0x0f) & 8 == d & 8;
    assert ((d >> 4) & 1 != 0 <==> d & 16 != 0) && ((d >> 4) & 2 != 0 <==> d & 32 != 0)
        && ((d >> 4) & 4 != 0 <==> d & 64 != 0) && ((d >> 4) & 8 != 0 <==> d & 128 != 0);
  }

  lemma LowNibble(n: Byte)
    requires n < 16
    ensures CountBits(n) == One(n & 1 != 0) + One(n & 2 != 0) + One(n & 4 != 0) + One(n & 8 != 0)
  {
  }

  // ---- the set of a byte buffer

  predicate Has(data: seq<Byte>, i: nat) {
    i / 8 < |data| && ReadBit(data[i / 8], i % 8)
  }

  /** The positions of the set bits. */
  ghost function Members(data: seq<Byte>): (r: set<nat>)
    ensures forall i: nat :: i in r <==> Has(data, i)
  {
    set i: nat | i < 8 * |data| && Has(data, i)
  }

  /** The number of set bits by table lookup, byte by byte. */
  function PopCount(data: seq<Byte>): nat {
    if data == [] then 0
    else
      var last := data[|data| - 1];
      PopCount(data[..|data| - 1]) + CountBits(last >> 4) + CountBits(last & 0x0f)
  }

  predicate BitFrom(b: Byte, start: nat, i: nat) {
    start <= i < start + 8 && ReadBit(b, i - start)
  }

  ghost function FirstBits(b: Byte, start: nat, k: nat): set<nat>
    requires k <= 8
  {
    set i: nat | i < start + k && BitFrom(b, start, i)
  }

  lemma FirstBitsStep(b: Byte, start: nat, k: nat)
    requires k < 8
    ensures |FirstBits(b, start, k + 1)| == |FirstBits(b, start, k)| + One(ReadBit(b, k))
  {
    hide ReadBit;
    assert FirstBits(b, start, k + 1) == FirstBits(b, start, k) + (if ReadBit(b, k) then {start + k} else {});
  }

  lemma ByteCount(b: Byte, start: nat)
    ensures |FirstBits(b, start, 8)| == CountBits(b >> 4) + CountBits(b & 0x0f)
  {
    hide CountBits, ReadBit;
    NibblesCount(b);
    assert FirstBits(b, start, 0) == {};
    FirstBitsStep(b, start, 0); FirstBitsStep(b, start, 1); FirstBitsStep(b, start, 2); FirstBitsStep(b, start, 3);
    FirstBitsStep(b, start, 4); FirstBitsStep(b, start, 5); FirstBitsStep(b, start, 6); FirstBitsStep(b, start, 7);
  }

  /** The byte-wise table count is the size of the set. */
  lemma {:induction false} PopCountIsSize(data: seq<Byte>)
    ensures PopCount(data) == |Members(data)|
  {
    hide CountBits, ReadBit;
    if data == [] {
      assert Members(data) == {};
    } else {
      var n := |data| - 1;
      var front := data[..n];
      PopCountIsSize(front);
      ByteCount(data[n], 8 * n);
      forall i: nat ensures i in Members(data) <==> i in Members(front) + FirstBits(data[n], 8 * n, 8) {
        if i < 8 * n { assert i / 8 < n; } else if i < 8 * n + 8 { assert i / 8 == n && i % 8 == i - 8 * n; }
      }
      assert Members(data) == Members(front) + FirstBits(data[n], 8 * n, 8);
    }
  }

  lemma SamePlace(i: nat, j: nat)
    ensures i == j <==> i / 8 == j / 8 && i % 8 == j % 8
  {
  }

  lemma SetHas(data: seq<Byte>, element: nat, i: nat)
    requires element / 8 < |data|
    ensures Has(data[element / 8 := data[element / 8] | Bit(element % 8)], i) <==> Has(data, i) || i == element
  {
    hide ReadBit, Bit;
    SamePlace(i, element);
    OrBit(data[element / 8], element % 8, i % 8);
  }

  lemma ClearHas(data: seq<Byte>, element: nat, i: nat)
    requires element / 8 < |data|
    ensures Has(data[element / 8 := data[element / 8] & !Bit(element % 8)], i) <==> Has(data, i) && i != element
  {
    hide ReadBit, Bit;
    SamePlace(i, element);
    ClearBit(data[element / 8], element % 8, i % 8);
  }

  lemma SetOne(data: seq<Byte>, element: nat)
    requires element / 8 < |data|
    ensures Members(data[element / 8 := data[element / 8] | Bit(element % 8)]) == Members(data) + {element}
    ensures data[element / 8] | Bit(element % 8) != data[element / 8] <==> element !in Members(data)
  {
    var after := data[element / 8 := data[element / 8] | Bit(element % 8)];
    SetChanges(data, element);
    hide Has, Bit;
    forall i: nat ensures i in Members(after) <==> i in Members(data) + {element} { SetHas(data, element, i); }
  }

  lemma SetChanges(data: seq<Byte>, element: nat)
    requires element / 8 < |data|
    ensures data[element / 8] | Bit(element % 8) != data[element / 8] <==> !Has(data, element)
  {
    hide ReadBit, Bit;
    OrBit(data[element / 8], element % 8, element % 8);
  }

  lemma ClearOne(data: seq<Byte>, element: nat)
    requires element / 8 < |data|
    ensures Members(data[element / 8 := data[element / 8] & !Bit(element % 8)]) == Members(data) - {element}
    ensures data[element / 8] & !Bit(element % 8) != data[element / 8] <==> element in Members(data)
  {
    var after := data[element / 8 := data[element / 8] & !Bit(element % 8)];
    ClearChanges(data, element);
    hide Has, Bit;
    forall i: nat ensures i in Members(after) <==> i in Members(data) - {element} { ClearHas(data, element, i); }
  }

  lemma ClearChanges(data: seq<Byte>, element: nat)
    requires element / 8 < |data|
    ensures data[element / 8] & !Bit(element % 8) != data[element / 8] <==> Has(data, element)
  {
    hide ReadBit, Bit;
    ClearBit(data[element / 8], element % 8, element % 8);
  }

  lemma AndAll(d: seq<Byte>, s: seq<Byte>, r: seq<Byte>)
    requires |d| == |s| == |r| && forall k :: 0 <= k < |d| ==> r[k] == d[k] & s[k]
    ensures Members(r) == Members(d) * Members(s)
  {
    hide ReadBit;
    forall i: nat ensures Has(r, i) <==> Has(d, i) && Has(s, i) {
      if i / 8 < |d| { AndBit(d[i / 8], s[i / 8], i % 8); }
    }
  }

  lemma OrAll(d: seq<Byte>, s: seq<Byte>, r: seq<Byte>)
    requires |d| == |s| == |r| && forall k :: 0 <= k < |d| ==> r[k] == d[k] | s[k]
    ensures Members(r) == Members(d) + Members(s)
  {
    hide ReadBit;
    forall i: nat ensures Has(r, i) <==> Has(d, i) || Has(s, i) {
      if i / 8 < |d| { UnionBit(d[i / 8], s[i / 8], i % 8); }
    }
  }

  function DiffByte(d: Byte, s: Byte): Byte { d & (d ^ s) }

  lemma DiffAll(d: seq<Byte>, s: seq<Byte>, r: seq<Byte>)
    requires |d| == |s| == |r| && forall k :: 0 <= k < |d| ==> r[k] == DiffByte(d[k], s[k])
    ensures Members(r) == Members(d) - Members(s)
  {
    hide ReadBit;
    forall i: nat ensures Has(r, i) <==> Has(d, i) && !Has(s, i) {
      if i / 8 < |d| { DiffBit(d[i / 8], s[i / 8], i % 8); }
    }
  }

  lemma NotAll(d: seq<Byte>, r: seq<Byte>)
    requires |d| == |r| && forall k :: 0 <= k < |d| ==> r[k] == !d[k]
    ensures forall i: nat :: i in Members(r) <==> i < 8 * |d| && i !in Members(d)
  {
    hide ReadBit;
    forall i: nat ensures Has(r, i) <==> i < 8 * |d| && !Has(d, i) {
      if i / 8 < |d| { NotBit(d[i / 8], i % 8); }
    }
  }

  lemma ZeroAll(d: seq<Byte>)
    requires forall k :: 0 <= k < |d| ==> d[k] == 0
    ensures Members(d) == {}
  {
  }

  function NumChunks(bits: nat): nat { (bits + 7) / 8 }

  /** Negating a bitmap leaves the bits within its range exactly when the range is a whole number of bytes. */
  lemma NegateInRange(maxBits: nat, d: seq<Byte>, r: seq<Byte>)
    requires |d| == |r| == NumChunks(maxBits) && forall k :: 0 <= k < |d| ==> r[k] == !d[k]
    requires forall i :: i in Members(d) ==> i < maxBits
    ensures (forall i :: i in Members(r) ==> i < maxBits) <==> maxBits % 8 == 0
  {
    NotAll(d, r);
    if maxBits % 8 != 0 { assert maxBits !in Members(d) && maxBits in Members(r); }
  }

  class Bitmap {
    const maxBits: nat
    var numSet: nat
    const data: array<Byte>

    ghost function Set(): set<nat>
      reads this, data
    {
      Members(data[..])
    }

    ghost predicate Valid()
      reads this, data
    {
      data.Length == NumChunks(maxBits) && numSet == |Set()|
    }

    constructor (maxBits: nat)
      ensures Valid() && this.maxBits == maxBits && Set() == {} && fresh(data)
    {
      this.maxBits := maxBits;
      numSet := 0;
      data := new Byte[NumChunks(maxBits)](_ => 0);
      new;
      ZeroAll(data[..]);
    }

    method SetElement(element: nat)
      requires Valid() && element < maxBits
      modifies this`numSet, data
      ensures Valid() && Set() == old(Set()) + {element}
    {
      hide Has, Bit;
      SetOne(data[..], element);
      var before := data[element / 8];
      ghost var was := data[..];
      data[element / 8] := before | Bit(element % 8);
      assert data[..] == was[element / 8 := before | Bit(element % 8)];
      if data[element / 8] != before { numSet := numSet + 1; }
    }

    method UnsetElement(element: nat)
      requires Valid() && element < maxBits
      modifies this`numSet, data
      ensures Valid() && Set() == old(Set()) - {element}
    {
      hide Has, Bit;
      ClearOne(data[..], element);
      var before := data[element / 8];
      ghost var was := data[..];
      data[element / 8] := before & !Bit(element % 8);
      assert data[..] == was[element / 8 := before & !Bit(element % 8)];
      if data[element / 8] != before { numSet := numSet - 1; }
    }

    method SetBit(element: nat, value: bool)
      requires Valid() && element < maxBits
      modifies this`numSet, data
      ensures Valid() && Set() == if value then old(Set()) + {element} else old(Set()) - {element}
    {
      if value { SetElement(element); } else { UnsetElement(element); }
    }

    method IsSet(element: nat) returns (r: bool)
      requires Valid() && element < maxBits
      ensures r <==> element in Set()
    {
      r := ReadBit(data[element / 8], element % 8);
    }

    method RefreshNumSet()
      requires data.Length == NumChunks(maxBits)
      modifies this`numSet
      ensures Valid()
    {
      hide CountBits, Has;
      numSet := 0;
      var i := 0;
      while i < data.Length
        invariant 0 <= i <= data.Length && numSet == PopCount(data[..i])
      {
        assert data[..i + 1][..i] == data[..i];
        numSet := numSet + CountBits(data[i] >> 4) + CountBits(data[i] & 0x0f);
        i := i + 1;
      }
      assert data[..i] == data[..];
      PopCountIsSize(data[..]);
    }

    method And(src: Bitmap)
      requires Valid() && src.Valid() && src.maxBits == maxBits && src.data != data
      modifies this`numSet, data
      ensures Valid() && Set() == old(Set()) * src.Set() && src.Set() == old(src.Set())
    {
      hide Members, Has, PopCount;
      ghost var was := data[..];
      var i := 0;
      while i < data.Length
        invariant 0 <= i <= data.Length && forall k :: 0 <= k < i ==> data[k] == was[k] & src.data[k]
        invariant forall k :: i <= k < data.Length ==> data[k] == was[k]
      {
        data[i] := data[i] & src.data[i];
        i := i + 1;
      }
      AndAll(was, src.data[..], data[..]);
      RefreshNumSet();
    }

    method Or(src: Bitmap)
      requires Valid() && src.Valid() && src.maxBits == maxBits && src.data != data
      modifies this`numSet, data
      ensures Valid() && Set() == old(Set()) + src.Set() && src.Set() == old(src.Set())
    {
      hide Members, Has, PopCount;
      ghost var was := data[..];
      var i := 0;
      while i < data.Length
        invariant 0 <= i <= data.Length && forall k :: 0 <= k < i ==> data[k] == was[k] | src.data[k]
        invariant forall k :: i <= k < data.Length ==> data[k] == was[k]
      {
        data[i] := data[i] | src.data[i];
        i := i + 1;
      }
      OrAll(was, src.data[..], data[..]);
      RefreshNumSet();
    }

    method Diff(src: Bitmap)
      requires Valid() && src.Valid() && src.maxBits == maxBits && src.data != data
      modifies this`numSet, data
      ensures Valid() && Set() == old(Set()) - src.Set() && src.Set() == old(src.Set())
    {
      hide DiffByte;
      hide Members, Has, PopCount;
      ghost var was := data[..];
      var i := 0;
      while i < data.Length
        invariant 0 <= i <= data.Length && forall k :: 0 <= k < i ==> data[k] == DiffByte(was[k], src.data[k])
        invariant forall k :: i <= k < data.Length ==> data[k] == was[k]
      {
        data[i] := DiffByte(data[i], src.data[i]);
        i := i + 1;
      }
      DiffAll(was, src.data[..], data[..]);
      RefreshNumSet();
    }

    method Negate()
      requires Valid()
      modifies this`numSet, data
      ensures Valid() && forall i: nat :: i in Set() <==> i < 8 * data.Length && i !in old(Set())
    {
      ghost var was := data[..];
      var i := 0;
      while i < data.Length
        invariant 0 <= i <= data.Length && forall k :: 0 <= k < i ==> data[k] == !was[k]
        invariant forall k :: i <= k < data.Length ==> data[k] == was[k]
      {
        data[i] := !data[i];
        i := i + 1;
      }
      NotAll(was, data[..]);
      RefreshNumSet();
    }

    method Nullify()
      requires Valid()
      modifies this`numSet, data
      ensures Valid() && Set() == {}
    {
      numSet := 0;
      forall k | 0 <= k < data.Length { data[k] := 0; }
      ZeroAll(data[..]);
    }

    method SetBitmap(src: Bitmap)
      requires Valid() && src.Valid() && src.maxBits == maxBits && src.data != data
      modifies this`numSet, data
      ensures Valid() && Set() == src.Set() == old(src.Set())
    {
      assert src != this;
      ghost var from := src.data[..];
      numSet := src.numSet;
      forall k | 0 <= k < data.Length { data[k] := src.data[k]; }
      assert data[..] == from && src.data[..] == from;
    }
  }
}
