/** Block-sparse bit tables: sets of entity ids, stored as one bitmap for every block of ids. */
module BitTables {
  import opened Bitmaps

  const BLOCK_SIZE: nat := 256

  // ---- a set of ids, block by block

  /** The id at offset `i` of block `k`. */
  function Id(k: nat, i: nat): (id: nat)
    ensures i < BLOCK_SIZE ==> id / BLOCK_SIZE == k && id % BLOCK_SIZE == i
  {
    BLOCK_SIZE * k + i
  }

  lemma IdOf(id: nat)
    ensures Id(id / BLOCK_SIZE, id % BLOCK_SIZE) == id
  {
  }

  /** The offsets of the ids of block `k`. */
  ghost function Block(ids: set<nat>, k: nat): (r: set<nat>)
    ensures forall i: nat :: i in r <==> i < BLOCK_SIZE && Id(k, i) in ids
  {
    set i: nat | i < BLOCK_SIZE && Id(k, i) in ids
  }

  ghost function Shifted(k: nat, offsets: set<nat>): set<nat> {
    set i | i in offsets :: Id(k, i)
  }

  /** The ids with those of block `k` replaced by the ones at `offsets`. */
  ghost function Replace(ids: set<nat>, k: nat, offsets: set<nat>): set<nat> {
    (set id | id in ids && id / BLOCK_SIZE != k) + Shifted(k, offsets)
  }

  lemma ReplaceMembers(ids: set<nat>, k: nat, offsets: set<nat>, id: nat)
    requires forall i :: i in offsets ==> i < BLOCK_SIZE
    ensures id in Replace(ids, k, offsets) <==> if id / BLOCK_SIZE == k then id % BLOCK_SIZE in offsets else id in ids
  {
    if id in Shifted(k, offsets) {
      var i :| i in offsets && id == Id(k, i);
    }
    IdOf(id);
  }

  lemma ReplaceBlocks(ids: set<nat>, k: nat, offsets: set<nat>, j: nat)
    requires forall i :: i in offsets ==> i < BLOCK_SIZE
    ensures Block(Replace(ids, k, offsets), j) == if j == k then offsets else Block(ids, j)
  {
    forall i: nat | i < BLOCK_SIZE
      ensures i in Block(Replace(ids, k, offsets), j) <==> i in (if j == k then offsets else Block(ids, j))
    {
      ReplaceMembers(ids, k, offsets, Id(j, i));
    }
  }

  lemma {:induction false} ShiftedSize(k: nat, offsets: set<nat>)
    ensures |Shifted(k, offsets)| == |offsets|
  {
    if offsets != {} {
      var i :| i in offsets;
      var rest := Shifted(k, offsets - {i});
      ShiftedSize(k, offsets - {i});
      assert Shifted(k, offsets) == rest + {Id(k, i)};
      forall j | j in offsets - {i} ensures Id(k, j) != Id(k, i) {
      }
    }
  }

  lemma ReplaceSize(ids: set<nat>, k: nat, offsets: set<nat>)
    requires forall i :: i in offsets ==> i < BLOCK_SIZE
    ensures |Replace(ids, k, offsets)| == |ids| - |Block(ids, k)| + |offsets|
  {
    hide Id;
    var others := set id | id in ids && id / BLOCK_SIZE != k;
    var former, latter := Shifted(k, Block(ids, k)), Shifted(k, offsets);
    ShiftedSize(k, offsets);
    ShiftedSize(k, Block(ids, k));
    forall id ensures id in ids <==> id in others + former {
      IdOf(id);
      if id in former { var i :| i in Block(ids, k) && id == Id(k, i); }
    }
    assert ids == others + former;
    assert others !! former && others !! latter;
  }

  /** Sets with the same blocks are the same. */
  lemma SameBlocks(a: set<nat>, b: set<nat>)
    requires forall k: nat :: Block(a, k) == Block(b, k)
    ensures a == b
  {
    forall id: nat ensures id in a <==> id in b {
      IdOf(id);
      assert id % BLOCK_SIZE in Block(a, id / BLOCK_SIZE) <==> id % BLOCK_SIZE in Block(b, id / BLOCK_SIZE);
    }
  }

  /** `sets` holds, for every block with a bitmap, the offsets of the ids of that block. */
  ghost predicate Represents(sets: map<nat, set<nat>>, ids: set<nat>) {
    && (forall k :: k in sets ==> sets[k] == Block(ids, k))
    && (forall id :: id in ids ==> id / BLOCK_SIZE in sets)
  }

  lemma ReplaceRepresents(sets: map<nat, set<nat>>, ids: set<nat>, k: nat, offsets: set<nat>)
    requires Represents(sets, ids) && forall i :: i in offsets ==> i < BLOCK_SIZE
    ensures Represents(sets[k := offsets], Replace(ids, k, offsets))
  {
    forall j | j in sets[k := offsets] ensures sets[k := offsets][j] == Block(Replace(ids, k, offsets), j) {
      ReplaceBlocks(ids, k, offsets, j);
    }
    forall id | id in Replace(ids, k, offsets) ensures id / BLOCK_SIZE in sets[k := offsets] {
      ReplaceMembers(ids, k, offsets, id);
    }
  }

  lemma NoBitmapNoIds(sets: map<nat, set<nat>>, ids: set<nat>, k: nat)
    requires Represents(sets, ids) && k !in sets
    ensures Block(ids, k) == {}
  {
    forall i: nat | i < BLOCK_SIZE ensures Id(k, i) !in ids { }
  }

  datatype BitTableOp = OpAnd | OpOr | OpDiff

  ghost function Combine(op: BitTableOp, a: set<nat>, b: set<nat>): set<nat> {
    match op
    case OpAnd => a * b
    case OpOr => a + b
    case OpDiff => a - b
  }

  lemma AddToBlock(ids: set<nat>, id: nat)
    ensures Replace(ids, id / BLOCK_SIZE, Block(ids, id / BLOCK_SIZE) + {id % BLOCK_SIZE}) == ids + {id}
  {
    var k := id / BLOCK_SIZE;
    forall j: nat ensures j in Replace(ids, k, Block(ids, k) + {id % BLOCK_SIZE}) <==> j in ids + {id} {
      ReplaceMembers(ids, k, Block(ids, k) + {id % BLOCK_SIZE}, j);
      IdOf(j); IdOf(id);
    }
  }

  lemma RemoveFromBlock(ids: set<nat>, id: nat)
    ensures Replace(ids, id / BLOCK_SIZE, Block(ids, id / BLOCK_SIZE) - {id % BLOCK_SIZE}) == ids - {id}
  {
    var k := id / BLOCK_SIZE;
    forall j: nat ensures j in Replace(ids, k, Block(ids, k) - {id % BLOCK_SIZE}) <==> j in ids - {id} {
      ReplaceMembers(ids, k, Block(ids, k) - {id % BLOCK_SIZE}, j);
      IdOf(j); IdOf(id);
    }
  }

  class BitTable {
    var bitmaps: map<nat, Bitmap>
    var size: nat
    ghost var ids: set<nat>
    ghost var repr: set<object>

    /** Every block has a bitmap of its own. */
    ghost predicate Shaped()
      reads this`bitmaps, this`repr, repr
    {
      && (forall k :: k in bitmaps ==>
            bitmaps[k] in repr && bitmaps[k].data in repr && bitmaps[k].Valid() && bitmaps[k].maxBits == BLOCK_SIZE)
      && (forall k, j :: k in bitmaps && j in bitmaps && k != j ==>
            bitmaps[k] != bitmaps[j] && bitmaps[k].data != bitmaps[j].data)
    }

    ghost function Sets(): map<nat, set<nat>>
      requires Shaped()
      reads this`bitmaps, this`repr, repr
    {
      map k | k in bitmaps :: bitmaps[k].Set()
    }

    ghost predicate Valid()
      reads this, repr
    {
      this !in repr && Shaped() && Represents(Sets(), ids) && size == |ids|
    }

    constructor ()
      ensures Valid() && ids == {} && fresh(repr)
    {
      bitmaps, size, ids, repr := map[], 0, {}, {};
    }

    method Exists(id: nat) returns (r: bool)
      requires Valid()
      ensures r <==> id in ids
    {
      var k := id / BLOCK_SIZE;
      IdOf(id);
      if k !in bitmaps { return false; }
      assert Sets()[k] == Block(ids, k);
      r := bitmaps[k].IsSet(id % BLOCK_SIZE);
    }

    lemma Owned(k: nat)
      requires Shaped()
      ensures Sets().Keys == bitmaps.Keys
      ensures k in bitmaps ==> bitmaps[k] in repr && bitmaps[k].data in repr
    {
    }

    /** After a change of one bitmap only its set has changed. */
    twostate lemma OneChanged(k: nat)
      requires old(Shaped()) && k in bitmaps && unchanged(`bitmaps) && unchanged(`repr)
      requires bitmaps[k].Valid() && forall o :: o in repr && o != bitmaps[k] && o != bitmaps[k].data ==> unchanged(o)
      ensures Shaped() && Sets() == old(Sets())[k := bitmaps[k].Set()]
    {
      hide Members, Has;
    }

    method NewBitmap(k: nat) returns (bitmap: Bitmap)
      requires this !in repr && Shaped() && k !in bitmaps
      modifies this`bitmaps, this`repr
      ensures this !in repr && Shaped() && bitmaps == old(bitmaps)[k := bitmap] && Sets() == old(Sets())[k := {}]
      ensures fresh(repr - old(repr)) && old(repr) <= repr
    {
      hide Members, Has;
      bitmap := new Bitmap(BLOCK_SIZE);
      bitmaps := bitmaps[k := bitmap];
      repr := repr + {bitmap, bitmap.data};
      assert forall j :: j in old(bitmaps) ==> bitmaps[j].Set() == old(bitmaps[j].Set());
    }

    /** The bitmap of block `k`, created empty when there is none. */
    method Ensure(k: nat) returns (bitmap: Bitmap)
      requires Valid()
      modifies this`bitmaps, this`repr
      ensures Valid() && k in bitmaps && bitmap == bitmaps[k]
      ensures fresh(repr - old(repr)) && old(repr) <= repr
      ensures k in old(bitmaps) ==> bitmaps == old(bitmaps)
      ensures k !in old(bitmaps) ==> bitmaps == old(bitmaps)[k := bitmap]
    {
      hide Represents, Block, Replace, Shaped, Members, Has, Id;
      if k in bitmaps { return bitmaps[k]; }
      NoBitmapNoIds(Sets(), ids, k);
      ReplaceRepresents(Sets(), ids, k, {});
      SameWithEmptied(ids, k);
      bitmap := NewBitmap(k);
    }

    method IsSetAt(k: nat, offset: nat) returns (r: bool)
      requires Shaped() && k in bitmaps && offset < BLOCK_SIZE
      ensures r <==> offset in Sets()[k]
    {
      r := bitmaps[k].IsSet(offset);
    }

    method SetAt(bitmap: Bitmap, ghost k: nat, offset: nat, value: bool)
      requires Shaped() && k in bitmaps && bitmaps[k] == bitmap && offset < BLOCK_SIZE
      modifies bitmap`numSet, bitmap.data
      ensures Shaped()
      ensures Sets() == old(Sets())[k := if value then old(Sets())[k] + {offset} else old(Sets())[k] - {offset}]
    {
      hide Members, Has;
      bitmap.SetBit(offset, value);
      OneChanged(k);
    }

    method Add(id: nat)
      requires Valid()
      modifies this, repr
      ensures Valid() && ids == old(ids) + {id} && fresh(repr - old(repr))
      ensures id / BLOCK_SIZE in old(bitmaps) ==> bitmaps == old(bitmaps)
    {
      hide Represents, Replace, Block, Shaped, Members, Has, Id, Sets;
      var k, offset := id / BLOCK_SIZE, id % BLOCK_SIZE;
      var bitmap := Ensure(k);
      ghost var sets := Sets();
      Owned(k);
      HasBlock(sets, ids, k, id);
      var known := IsSetAt(k, offset);
      if !known {
        size := size + 1;
        SetAt(bitmap, k, offset, true);
        ReplaceRepresents(sets, ids, k, sets[k] + {offset});
        AddToBlock(ids, id);
        ids := ids + {id};
      }
    }

    method Remove(id: nat)
      requires Valid()
      modifies this, repr
      ensures Valid() && ids == old(ids) - {id} && repr == old(repr) && bitmaps == old(bitmaps)
    {
      hide Represents, Replace, Block, Shaped, Members, Has, Id, Sets;
      var k, offset := id / BLOCK_SIZE, id % BLOCK_SIZE;
      ghost var sets := Sets();
      Owned(k);
      if k !in bitmaps {
        NoBlock(sets, ids, id);
        return;
      }
      HasBlock(sets, ids, k, id);
      var known := IsSetAt(k, offset);
      if known {
        size := size - 1;
        SetAt(bitmaps[k], k, offset, false);
        ReplaceRepresents(sets, ids, k, sets[k] - {offset});
        RemoveFromBlock(ids, id);
        ids := ids - {id};
      }
    }

    /** Combines one bitmap with `src` and keeps the size in step. */
    method CombineAt(bitmap: Bitmap, ghost k: nat, src: Bitmap, op: BitTableOp)
      requires this !in repr && Shaped() && k in bitmaps && bitmaps[k] == bitmap
      requires src.Valid() && src.maxBits == BLOCK_SIZE && src !in repr && src.data !in repr
      requires size >= |Sets()[k]|
      modifies this`size, bitmap`numSet, bitmap.data
      ensures Shaped() && Sets() == old(Sets())[k := Combine(op, old(Sets())[k], src.Set())]
      ensures size == old(size) - |old(Sets())[k]| + |Sets()[k]|
    {
      hide Members, Has;
      size := size - bitmap.numSet;
      match op {
        case OpAnd => bitmap.And(src);
        case OpOr => bitmap.Or(src);
        case OpDiff => bitmap.Diff(src);
      }
      size := size + bitmap.numSet;
      OneChanged(k);
    }

    method ApplyBitset(k: nat, src: Bitmap, op: BitTableOp)
      requires Valid() && src.Valid() && src.maxBits == BLOCK_SIZE && src !in repr && src.data !in repr
      modifies this, repr
      ensures Valid() && fresh(repr - old(repr)) && src.Set() == old(src.Set())
      ensures ids == Replace(old(ids), k, Combine(op, Block(old(ids), k), src.Set()))
      ensures op != OpOr || k in old(bitmaps) ==> bitmaps == old(bitmaps)
    {
      hide Represents, Replace, Block, Shaped, Members, Has, Id, Sets;
      Owned(k);
      if k !in bitmaps && op != OpOr {
        NoBitmapNoIds(Sets(), ids, k);
        SameWithEmptied(ids, k);
        assert Combine(op, {}, src.Set()) == {};
        return;
      }
      var bitmap := Ensure(k);
      Owned(k);
      ApplyAt(bitmap, k, src, op);
    }

    /** The block of a bitmap that is there is combined with `src`. */
    method ApplyAt(bitmap: Bitmap, ghost k: nat, src: Bitmap, op: BitTableOp)
      requires Valid() && k in bitmaps && bitmaps[k] == bitmap
      requires src.Valid() && src.maxBits == BLOCK_SIZE && src !in repr && src.data !in repr
      modifies this`size, this`ids, bitmap`numSet, bitmap.data
      ensures Valid() && src.Set() == old(src.Set())
      ensures ids == Replace(old(ids), k, Combine(op, Block(old(ids), k), src.Set()))
    {
      hide Represents, Replace, Block, Shaped, Members, Has, Id, Sets;
      ghost var sets := Sets();
      Owned(k);
      HasBlock(sets, ids, k, 0);
      BlockSize(ids, k);
      CombineAt(bitmap, k, src, op);
      ghost var offsets := Combine(op, sets[k], src.Set());
      BitmapRange(src);
      OffsetsBelow(ids, k);
      ReplaceRepresents(sets, ids, k, offsets);
      ReplaceSize(ids, k, offsets);
      ids := Replace(ids, k, offsets);
    }

    /** Applies every bitmap of `other`, in any order. */
    method ApplyAll(other: BitTable, op: BitTableOp)
      requires Valid() && other.Valid() && op != OpAnd
      requires other != this && this !in other.repr && other !in repr && repr !! other.repr
      modifies this, repr
      ensures Valid() && fresh(repr - old(repr)) && ids == Combine(op, old(ids), other.ids)
      ensures other.Valid() && other.ids == old(other.ids) && other.repr == old(other.repr)
    {
      hide Represents, Replace, Block, Shaped, Members, Has, Id, Sets, Combined;
      ghost var was, sets := ids, other.Sets();
      other.Owned(0);
      CombineStart(op, sets, other.ids, was);
      var left := other.bitmaps.Keys;
      while left != {}
        invariant left <= other.bitmaps.Keys && Valid() && fresh(repr - old(repr))
        invariant other.Valid() && Combined(op, was, other.ids, left, ids)
        decreases left
      {
        var k :| k in left;
        other.Owned(k);
        HasBlock(other.Sets(), other.ids, k, 0);
        other.SetsAt(k);
        CombineStep(op, was, other.ids, left, ids, k);
        ApplyBitset(k, other.bitmaps[k], op);
        left := left - {k};
      }
      CombineEnd(op, was, other.ids, ids);
    }

    lemma SetsAt(k: nat)
      requires Shaped() && k in bitmaps
      ensures bitmaps[k].Valid() && bitmaps[k].maxBits == BLOCK_SIZE && Sets()[k] == bitmaps[k].Set()
    {
    }

    method Union(other: BitTable)
      requires Valid() && other.Valid()
      requires other != this && this !in other.repr && other !in repr && repr !! other.repr
      modifies this, repr
      ensures Valid() && fresh(repr - old(repr)) && ids == old(ids) + other.ids
      ensures other.Valid() && other.ids == old(other.ids) && other.repr == old(other.repr)
    {
      ApplyAll(other, OpOr);
    }

    method Difference(other: BitTable)
      requires Valid() && other.Valid()
      requires other != this && this !in other.repr && other !in repr && repr !! other.repr
      modifies this, repr
      ensures Valid() && fresh(repr - old(repr)) && ids == old(ids) - other.ids
      ensures other.Valid() && other.ids == old(other.ids) && other.repr == old(other.repr)
    {
      ApplyAll(other, OpDiff);
    }

    method Size() returns (n: nat)
      requires Valid()
      ensures n == |ids|
    {
      n := size;
    }

    /** Empties every bitmap; the bitmaps themselves stay. */
    method Clear()
      requires Valid()
      modifies this, repr
      ensures Valid() && ids == {} && repr == old(repr) && bitmaps == old(bitmaps)
    {
      hide Represents, Members, Has, Id, Block, Shaped, Sets;
      Owned(0);
      var left := bitmaps.Keys;
      while left != {}
        invariant left <= bitmaps.Keys && this !in repr && repr == old(repr) && bitmaps == old(bitmaps) && Shaped()
        invariant Sets().Keys == bitmaps.Keys && forall k :: k in Sets() && k !in left ==> Sets()[k] == {}
        decreases left
      {
        var k :| k in left;
        Owned(k);
        NullifyAt(bitmaps[k], k);
        left := left - {k};
      }
      Owned(0);
      Emptied(Sets());
      size, ids := 0, {};
    }

    method NullifyAt(bitmap: Bitmap, ghost k: nat)
      requires Shaped() && k in bitmaps && bitmaps[k] == bitmap
      modifies bitmap`numSet, bitmap.data
      ensures Shaped() && Sets() == old(Sets())[k := {}]
    {
      hide Members, Has;
      bitmap.Nullify();
      OneChanged(k);
    }
  }

  lemma Emptied(sets: map<nat, set<nat>>)
    requires forall k :: k in sets ==> sets[k] == {}
    ensures Represents(sets, {})
  {
  }

  /** The blocks outside `left` are combined with those of `other`. */
  ghost predicate Combined(op: BitTableOp, was: set<nat>, other: set<nat>, left: set<nat>, ids: set<nat>) {
    forall k: nat :: Block(ids, k) == if k in left then Block(was, k) else Combine(op, Block(was, k), Block(other, k))
  }

  lemma CombineStart(op: BitTableOp, sets: map<nat, set<nat>>, other: set<nat>, was: set<nat>)
    requires Represents(sets, other) && op != OpAnd
    ensures Combined(op, was, other, sets.Keys, was)
  {
    forall k: nat | k !in sets.Keys ensures Block(was, k) == Combine(op, Block(was, k), Block(other, k)) {
      NoBitmapNoIds(sets, other, k);
    }
  }

  lemma CombineStep(op: BitTableOp, was: set<nat>, other: set<nat>, left: set<nat>, ids: set<nat>, k: nat)
    requires Combined(op, was, other, left, ids) && k in left
    ensures Combined(op, was, other, left - {k}, Replace(ids, k, Combine(op, Block(ids, k), Block(other, k))))
  {
    hide Id;
    var offsets := Combine(op, Block(ids, k), Block(other, k));
    forall j: nat ensures Block(Replace(ids, k, offsets), j) == if j == k then offsets else Block(ids, j) {
      ReplaceBlocks(ids, k, offsets, j);
    }
  }

  lemma CombineEnd(op: BitTableOp, was: set<nat>, other: set<nat>, ids: set<nat>)
    requires Combined(op, was, other, {}, ids)
    ensures ids == Combine(op, was, other)
  {
    hide Id;
    forall k: nat ensures Block(ids, k) == Block(Combine(op, was, other), k) {
    }
    SameBlocks(ids, Combine(op, was, other));
  }

  lemma BlockSize(ids: set<nat>, k: nat)
    ensures |Block(ids, k)| <= |ids|
  {
    ReplaceSize(ids, k, {});
  }

  lemma OffsetsBelow(ids: set<nat>, k: nat)
    ensures forall i :: i in Block(ids, k) ==> i < BLOCK_SIZE
  {
  }

  lemma BitmapRange(b: Bitmap)
    requires b.Valid() && b.maxBits == BLOCK_SIZE
    ensures forall i :: i in b.Set() ==> i < BLOCK_SIZE
  {
  }

  lemma SameWithEmptied(ids: set<nat>, k: nat)
    requires Block(ids, k) == {}
    ensures Replace(ids, k, {}) == ids
  {
    forall j: nat ensures j in Replace(ids, k, {}) <==> j in ids {
      ReplaceMembers(ids, k, {}, j);
      IdOf(j);
    }
  }

  lemma HasBlock(sets: map<nat, set<nat>>, ids: set<nat>, k: nat, id: nat)
    requires Represents(sets, ids) && k in sets
    ensures sets[k] == Block(ids, k)
    ensures id / BLOCK_SIZE == k ==> (id % BLOCK_SIZE in sets[k] <==> id in ids)
  {
    IdOf(id);
  }

  lemma NoBlock(sets: map<nat, set<nat>>, ids: set<nat>, id: nat)
    requires Represents(sets, ids) && id / BLOCK_SIZE !in sets
    ensures id !in ids
  {
  }
}
