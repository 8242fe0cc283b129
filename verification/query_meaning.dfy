/** What an operator tree means for one entity, and that the block-at-a-time execution of all threads computes it. */
module QueryMeaning {
  import opened Options
  import opened TableIters
  import opened QueryExec

  // ---- entity by entity

  function RefTarget(blocks: seq<RefBlock>, entity: nat): Option<nat> {
    if blocks == [] then None
    else if blocks[0].id == entity / BLOCK then
      if entity % BLOCK in blocks[0].targets then Some(blocks[0].targets[entity % BLOCK]) else None
    else RefTarget(blocks[1..], entity)
  }

  /** The entity that `entity` refers to in the reference table an operator reads. */
  function Target(db: Db, op: Op, entity: nat): Option<nat> {
    match op
    case RefScan(r) => RefTarget(TableOf(db.refs, r), entity)
    case TagFilter(child, _, _, _) => Target(db, child, entity)
    case _ => None
  }

  /** The operator lets the entity through. */
  predicate Sees(db: Db, op: Op, entity: nat) {
    match op
    case Scan(t) => TagHas(TableOf(db.tables, t), entity)
    case RefScan(r) => RefTarget(TableOf(db.refs, r), entity).Some?
    case Join(l, r) => Sees(db, l, entity) && Sees(db, r, entity)
    case LeftFilterJoin(l, r) => Sees(db, l, entity) && Sees(db, r, entity)
    case TagFilter(child, tag, has, onColumn) =>
      Sees(db, child, entity)
      && if onColumn then
           var t := Target(db, child, entity);
           t.Some? && TagHas(TableOf(db.tags, tag), t.value) == has
         else TagHas(TableOf(db.tags, tag), entity) == has
    case PredicateFilter(child, f) => Sees(db, child, entity) && db.holds(f, ArgsOf(db, child, entity))
    case Gather(child, table) =>
      var t := Target(db, table, entity);
      Sees(db, table, entity) && t.Some? && Sees(db, child, t.value)
  }

  function Pointers(types: seq<string>, entity: nat): seq<Ptr> {
    if types == [] then [] else [Ptr(types[0], entity)] + Pointers(types[1..], entity)
  }

  /** The component pointers an entity is passed on with. */
  function ArgsOf(db: Db, op: Op, entity: nat): seq<Ptr> {
    match op
    case Scan(t) => [Ptr(t, entity)]
    case RefScan(_) => []
    case Join(l, r) => ArgsOf(db, l, entity) + ArgsOf(db, r, entity)
    case LeftFilterJoin(l, _) => ArgsOf(db, l, entity)
    case TagFilter(child, _, _, _) => ArgsOf(db, child, entity)
    case PredicateFilter(child, _) => ArgsOf(db, child, entity)
    case Gather(child, table) =>
      var t := Target(db, table, entity);
      if t.Some? then Pointers(Types(child), t.value) else []
  }

  // ---- well-formed inputs

  /** A stream of references: a reference table, possibly filtered by tags of the targets. */
  predicate IsRef(op: Op) {
    match op
    case RefScan(_) => true
    case TagFilter(child, _, _, onColumn) => onColumn && IsRef(child)
    case _ => false
  }

  predicate OpOk(op: Op) {
    match op
    case Scan(_) => true
    case RefScan(_) => true
    case Join(l, r) => OpOk(l) && OpOk(r) && !IsRef(l) && !IsRef(r)
    case LeftFilterJoin(l, r) => OpOk(l) && OpOk(r) && !IsRef(l) && IsRef(r)
    case TagFilter(child, _, _, onColumn) => OpOk(child) && (onColumn <==> IsRef(child))
    case PredicateFilter(child, _) => OpOk(child) && !IsRef(child)
    case Gather(child, table) => OpOk(child) && OpOk(table) && !IsRef(child) && IsRef(table)
  }

  ghost predicate BlocksOk(blocks: seq<Block>, stride: nat) {
    && (forall i, j :: 0 <= i < j < |blocks| ==> blocks[i].id != blocks[j].id)
    && (forall i :: 0 <= i < |blocks| ==> blocks[i].id + stride < WORD && forall o :: o in blocks[i].enabled ==> o < BLOCK)
  }

  ghost predicate RefBlocksOk(blocks: seq<RefBlock>, stride: nat) {
    && (forall i, j :: 0 <= i < j < |blocks| ==> blocks[i].id != blocks[j].id)
    && (forall i :: 0 <= i < |blocks| ==> blocks[i].id + stride < WORD && forall o :: o in blocks[i].targets ==> o < BLOCK)
  }

  ghost predicate DbOk(db: Db, stride: nat) {
    && (forall t :: t in db.tables ==> BlocksOk(db.tables[t], stride))
    && (forall t :: t in db.tags ==> BlocksOk(db.tags[t], stride))
    && (forall r :: r in db.refs ==> RefBlocksOk(db.refs[r], stride))
  }

  // ---- streams

  ghost predicate StreamOk(stream: seq<Cluster>, p: Part) {
    && PartOk(p)
    && (forall i, j :: 0 <= i < j < |stream| ==> stream[i].block != stream[j].block)
    && (forall c :: c in stream ==>
          && BlockOffset(c.block, p.chunkSize, p.stride) == p.offset && c.block + p.stride < WORD
          && forall o :: o in c.enabled ==> o < BLOCK)
  }

  lemma {:induction false} LookupIn(stream: seq<Cluster>, block: nat)
    ensures Lookup(stream, block).Some? ==> Lookup(stream, block).value in stream && Lookup(stream, block).value.block == block
    ensures Lookup(stream, block).None? ==> forall c :: c in stream ==> c.block != block
  {
    if stream != [] && stream[0].block != block { LookupIn(stream[1..], block); }
  }

  lemma LookupCons(front: Option<Cluster>, rest: seq<Cluster>, block: nat)
    ensures Lookup((if front.Some? then [front.value] else []) + rest, block)
            == if front.Some? && front.value.block == block then front else Lookup(rest, block)
  {
    if front.Some? {
      assert ([front.value] + rest)[1..] == rest;
    } else {
      assert [] + rest == rest;
    }
  }

  lemma {:induction false} InLookup(stream: seq<Cluster>, c: Cluster)
    requires c in stream && forall i, j :: 0 <= i < j < |stream| ==> stream[i].block != stream[j].block
    ensures Lookup(stream, c.block) == Some(c)
  {
    if stream[0] != c { InLookup(stream[1..], c); }
  }

  lemma ConsumeKeepsBlock(db: Db, stage: Stage, c: Cluster)
    ensures Consume(db, stage, c).Some? ==> Consume(db, stage, c).value.block == c.block
    ensures Consume(db, stage, c).Some? ==> forall o :: o in Consume(db, stage, c).value.enabled ==> o in c.enabled
  {
  }

  /** A cluster that a join or a filter has emptied goes no further. */
  lemma NothingEmptyPassed(db: Db, stage: Stage, c: Cluster)
    requires c.enabled != {} || !stage.TempStage?
    ensures Consume(db, stage, c).Some? ==> Consume(db, stage, c).value.enabled != {}
  {
  }

  lemma {:induction false} PushLookup(db: Db, stage: Stage, stream: seq<Cluster>, block: nat)
    requires forall i, j :: 0 <= i < j < |stream| ==> stream[i].block != stream[j].block
    ensures Lookup(Push(db, stage, stream), block)
            == if Lookup(stream, block).Some? then Consume(db, stage, Lookup(stream, block).value) else None
  {
    hide Consume;
    if stream != [] {
      ConsumeKeepsBlock(db, stage, stream[0]);
      PushLookup(db, stage, stream[1..], block);
      LookupCons(Consume(db, stage, stream[0]), Push(db, stage, stream[1..]), block);
      LookupIn(stream[1..], block);
      if Lookup(stream[1..], block).Some? {
        var i :| 0 <= i < |stream[1..]| && stream[1..][i] == Lookup(stream[1..], block).value;
        assert stream[i + 1].block == block;
      }
    }
  }

  lemma {:induction false} PushMember(db: Db, stage: Stage, stream: seq<Cluster>, d: Cluster)
    requires d in Push(db, stage, stream)
    ensures exists c :: c in stream && Consume(db, stage, c) == Some(d)
  {
    hide Consume;
    if Consume(db, stage, stream[0]) != Some(d) {
      PushMember(db, stage, stream[1..], d);
      var c :| c in stream[1..] && Consume(db, stage, c) == Some(d);
      assert c in stream;
    }
  }

  lemma {:induction false} PushDistinct(db: Db, stage: Stage, stream: seq<Cluster>)
    requires forall i, j :: 0 <= i < j < |stream| ==> stream[i].block != stream[j].block
    ensures forall i, j :: 0 <= i < j < |Push(db, stage, stream)| ==> Push(db, stage, stream)[i].block != Push(db, stage, stream)[j].block
  {
    hide Consume;
    if stream != [] {
      PushDistinct(db, stage, stream[1..]);
      ConsumeKeepsBlock(db, stage, stream[0]);
      forall d | d in Push(db, stage, stream[1..]) ensures d.block != stream[0].block {
        PushMember(db, stage, stream[1..], d);
        var c :| c in stream[1..] && Consume(db, stage, c) == Some(d);
        ConsumeKeepsBlock(db, stage, c);
      }
    }
  }

  lemma PushOk(db: Db, stage: Stage, stream: seq<Cluster>, p: Part)
    requires StreamOk(stream, p)
    ensures StreamOk(Push(db, stage, stream), p)
  {
    hide Consume, Push;
    PushDistinct(db, stage, stream);
    forall d | d in Push(db, stage, stream)
      ensures BlockOffset(d.block, p.chunkSize, p.stride) == p.offset && d.block + p.stride < WORD
      ensures forall o :: o in d.enabled ==> o < BLOCK
    {
      PushMember(db, stage, stream, d);
      var c :| c in stream && Consume(db, stage, c) == Some(d);
      ConsumeKeepsBlock(db, stage, c);
    }
  }

  // ---- scans

  lemma {:induction false} ScanOk(blocks: seq<Block>, t: string, p: Part)
    requires BlocksOk(blocks, p.stride) && PartOk(p)
    ensures StreamOk(ScanStream(blocks, t, p), p)
    ensures forall c :: c in ScanStream(blocks, t, p) ==> exists b :: b in blocks && b.id == c.block
  {
    hide IsSelected, BlockOffset;
    if blocks != [] {
      ScanOk(blocks[1..], t, p);
      Small(blocks[0].id, p);
      forall c | c in ScanStream(blocks[1..], t, p) ensures c.block != blocks[0].id {
        var b :| b in blocks[1..] && b.id == c.block;
      }
    }
  }

  lemma Small(block: nat, p: Part)
    requires PartOk(p) && block + p.stride < WORD
    ensures IsSelected(block, p.chunkSize, p.offset, p.stride) <==> BlockOffset(block, p.chunkSize, p.stride) == p.offset
  {
    Quotient(block, p.chunkSize);
    SelectedIsOffset(block, p.chunkSize, p.offset, p.stride);
  }

  lemma {:induction false} ScanLookup(blocks: seq<Block>, t: string, p: Part, block: nat)
    requires BlocksOk(blocks, p.stride) && PartOk(p)
    ensures Lookup(ScanStream(blocks, t, p), block)
            == if Bits(blocks, block).Some? && BlockOffset(block, p.chunkSize, p.stride) == p.offset
               then Some(Cluster(block, Bits(blocks, block).value, [Component(t)])) else None
  {
    hide IsSelected, BlockOffset;
    if blocks != [] {
      Small(blocks[0].id, p);
      ScanLookup(blocks[1..], t, p, block);
      LookupCons(if IsSelected(blocks[0].id, p.chunkSize, p.offset, p.stride)
                 then Some(Cluster(blocks[0].id, blocks[0].enabled, [Component(t)])) else None, ScanStream(blocks[1..], t, p), block);
      if Bits(blocks[1..], block).Some? {
        BitsIn(blocks[1..], block);
        var b :| b in blocks[1..] && b.id == block;
        var i :| 0 <= i < |blocks[1..]| && blocks[1..][i] == b;
        assert blocks[i + 1].id == block;
      }
    }
  }

  lemma {:induction false} BitsIn(blocks: seq<Block>, block: nat)
    requires Bits(blocks, block).Some?
    ensures exists b :: b in blocks && b.id == block
  {
    if blocks[0].id != block {
      BitsIn(blocks[1..], block);
      var b :| b in blocks[1..] && b.id == block;
      assert b in blocks;
    } else {
      assert blocks[0] in blocks;
    }
  }

  function RefBits(blocks: seq<RefBlock>, block: nat): Option<map<nat, nat>> {
    if blocks == [] then None else if blocks[0].id == block then Some(blocks[0].targets) else RefBits(blocks[1..], block)
  }

  lemma {:induction false} RefTargetBits(blocks: seq<RefBlock>, e: nat)
    ensures RefTarget(blocks, e) == (var m := RefBits(blocks, e / BLOCK);
                                     if m.Some? && e % BLOCK in m.value then Some(m.value[e % BLOCK]) else None)
  {
    if blocks != [] && blocks[0].id != e / BLOCK { RefTargetBits(blocks[1..], e); }
  }

  lemma {:induction false} RefOk(blocks: seq<RefBlock>, p: Part)
    requires RefBlocksOk(blocks, p.stride) && PartOk(p)
    ensures StreamOk(RefStream(blocks, p), p)
    ensures forall c :: c in RefStream(blocks, p) ==> exists b :: b in blocks && b.id == c.block
  {
    hide IsSelected, BlockOffset;
    if blocks != [] {
      RefOk(blocks[1..], p);
      Small(blocks[0].id, p);
      forall c | c in RefStream(blocks[1..], p) ensures c.block != blocks[0].id {
        var b :| b in blocks[1..] && b.id == c.block;
      }
    }
  }

  lemma {:induction false} RefLookup(blocks: seq<RefBlock>, p: Part, block: nat)
    requires RefBlocksOk(blocks, p.stride) && PartOk(p)
    ensures Lookup(RefStream(blocks, p), block)
            == if RefBits(blocks, block).Some? && BlockOffset(block, p.chunkSize, p.stride) == p.offset
               then Some(Cluster(block, RefBits(blocks, block).value.Keys, [Ids(RefBits(blocks, block).value)])) else None
  {
    hide IsSelected, BlockOffset;
    if blocks != [] {
      Small(blocks[0].id, p);
      RefLookup(blocks[1..], p, block);
      LookupCons(if IsSelected(blocks[0].id, p.chunkSize, p.offset, p.stride)
                 then Some(Cluster(blocks[0].id, blocks[0].targets.Keys, [Ids(blocks[0].targets)])) else None,
                 RefStream(blocks[1..], p), block);
      if RefBits(blocks[1..], block).Some? {
        RefBitsIn(blocks[1..], block);
        var b :| b in blocks[1..] && b.id == block;
        var i :| 0 <= i < |blocks[1..]| && blocks[1..][i] == b;
        assert blocks[i + 1].id == block;
      }
    }
  }

  lemma {:induction false} RefBitsIn(blocks: seq<RefBlock>, block: nat)
    requires RefBits(blocks, block).Some?
    ensures exists b :: b in blocks && b.id == block
  {
    if blocks[0].id != block {
      RefBitsIn(blocks[1..], block);
      var b :| b in blocks[1..] && b.id == block;
      assert b in blocks;
    } else {
      assert blocks[0] in blocks;
    }
  }

  // ---- the temporary tables

  ghost predicate Ascends(temp: seq<RefBlock>) {
    forall i, j :: 0 <= i < j < |temp| ==> temp[i].id < temp[j].id
  }

  /** Putting a block in its place keeps the order; `lo` bounds all blocks. */
  lemma {:induction false} PutAscends(temp: seq<RefBlock>, block: nat, found: map<nat, nat>, lo: nat)
    requires Ascends(temp) && lo <= block && forall b :: b in temp ==> lo <= b.id
    ensures Ascends(Put(temp, block, found)) && forall b :: b in Put(temp, block, found) ==> lo <= b.id
  {
    if temp != [] && temp[0].id < block {
      forall b | b in temp[1..] ensures temp[0].id + 1 <= b.id {
        var i :| 0 <= i < |temp[1..]| && temp[1..][i] == b;
        assert temp[0].id < temp[i + 1].id;
      }
      PutAscends(temp[1..], block, found, temp[0].id + 1);
    }
  }

  lemma {:induction false} PutBits(temp: seq<RefBlock>, block: nat, found: map<nat, nat>, k: nat)
    requires Ascends(temp)
    ensures Ascends(Put(temp, block, found))
    ensures RefBits(Put(temp, block, found), k)
            == if k != block then RefBits(temp, k)
               else if RefBits(temp, block).Some? then Some(RefBits(temp, block).value + found) else Some(found)
  {
    PutAscends(temp, block, found, 0);
    if temp == [] || block < temp[0].id {
      BitsAbove(temp, block);
    } else if temp[0].id != block {
      PutBits(temp[1..], block, found, k);
    }
  }

  lemma {:induction false} BitsAbove(temp: seq<RefBlock>, k: nat)
    requires forall i :: 0 <= i < |temp| ==> temp[i].id != k
    ensures RefBits(temp, k) == None
  {
    if temp != [] { BitsAbove(temp[1..], k); }
  }

  /** The table has the found slots of every block of the stream that has any. */
  lemma {:induction false} FillAllBits(shares: seq<seq<Cluster>>, p: Part, temp: seq<RefBlock>, stream: seq<Cluster>, k: nat)
    requires p.chunkSize > 0 && p.stride > 0 && Ascends(temp)
    requires forall i, j :: 0 <= i < j < |stream| ==> stream[i].block != stream[j].block
    requires forall c :: c in stream ==> RefBits(temp, c.block) == None
    ensures Ascends(FillAll(shares, p, temp, stream))
    ensures RefBits(FillAll(shares, p, temp, stream), k)
            == (var c := Lookup(stream, k);
                if c.Some? && Found(shares, p, c.value) != map[] then Some(Found(shares, p, c.value)) else RefBits(temp, k))
    decreases |stream|
  {
    hide Found;
    if stream != [] {
      var more := Fill(shares, p, temp, stream[0]);
      PutBits(temp, stream[0].block, Found(shares, p, stream[0]), k);
      forall c | c in stream[1..] ensures RefBits(more, c.block) == None {
        PutBits(temp, stream[0].block, Found(shares, p, stream[0]), c.block);
      }
      FillAllBits(shares, p, more, stream[1..], k);
      LookupIn(stream[1..], k);
    }
  }

  lemma {:induction false} BitsOfMember(temp: seq<RefBlock>, b: RefBlock)
    requires Ascends(temp) && b in temp
    ensures RefBits(temp, b.id) == Some(b.targets)
  {
    if temp[0] != b { BitsOfMember(temp[1..], b); }
  }

  lemma TempOk(shares: seq<seq<Cluster>>, p: Part, stream: seq<Cluster>)
    requires PartOk(p) && StreamOk(stream, p)
    ensures RefBlocksOk(FillAll(shares, p, [], stream), p.stride)
  {
    hide BlockOffset, FillAll;
    var temp := FillAll(shares, p, [], stream);
    FillAllBits(shares, p, [], stream, 0);
    forall b | b in temp ensures b.id + p.stride < WORD && forall o :: o in b.targets ==> o < BLOCK {
      BitsOfMember(temp, b);
      FillAllBits(shares, p, [], stream, b.id);
      LookupIn(stream, b.id);
    }
  }

  // ---- the streams carry what the operators mean

  predicate InCluster(c: Option<Cluster>, e: nat) {
    c.Some? && e % BLOCK in c.value.enabled
  }

  /** The single id column of a reference stream names the target. */
  predicate NamesTarget(c: Cluster, e: nat, target: Option<nat>) {
    && |c.columns| == 1 && c.columns[0].Ids? && e % BLOCK in c.columns[0].targets
    && Some(c.columns[0].targets[e % BLOCK]) == target
  }

  /** `c`, the cluster for the block of `e`, holds `e` exactly when the operator lets it through in this thread. */
  predicate Carries(db: Db, op: Op, p: Part, c: Option<Cluster>, e: nat)
    requires p.chunkSize > 0 && p.stride > 0
  {
    && (InCluster(c, e) <==> Sees(db, op, e) && BlockOffset(e / BLOCK, p.chunkSize, p.stride) == p.offset)
    && (InCluster(c, e) ==>
          && c.value.block == e / BLOCK && Args(c.value.columns, c.value.block, e % BLOCK) == ArgsOf(db, op, e)
          && (IsRef(op) ==> NamesTarget(c.value, e, Target(db, op, e))))
  }

  lemma Whole(e: nat)
    ensures Id(e / BLOCK, e % BLOCK) == e
  {
  }

  lemma ScanCarries(db: Db, t: string, p: Part, e: nat)
    requires DbOk(db, p.stride) && PartOk(p)
    ensures StreamOk(Run(db, Scan(t), p), p) && Carries(db, Scan(t), p, Lookup(Run(db, Scan(t), p), e / BLOCK), e)
  {
    hide IsSelected, BlockOffset;
    var blocks := TableOf(db.tables, t);
    ScanOk(blocks, t, p);
    ScanLookup(blocks, t, p, e / BLOCK);
    Whole(e);
    assert Args([Component(t)], e / BLOCK, e % BLOCK) == [Ptr(t, e)];
  }

  lemma RefCarries(db: Db, r: string, p: Part, e: nat)
    requires DbOk(db, p.stride) && PartOk(p)
    ensures StreamOk(Run(db, RefScan(r), p), p) && Carries(db, RefScan(r), p, Lookup(Run(db, RefScan(r), p), e / BLOCK), e)
  {
    hide IsSelected, BlockOffset;
    var blocks := TableOf(db.refs, r);
    RefOk(blocks, p);
    RefLookup(blocks, p, e / BLOCK);
    RefTargetBits(blocks, e);
    var m := RefBits(blocks, e / BLOCK);
    if m.Some? { assert Args([Ids(m.value)], e / BLOCK, e % BLOCK) == []; }
  }

  lemma AnyIn(c: Cluster, e: nat)
    ensures InCluster(SomeIfAny(c), e) <==> e % BLOCK in c.enabled
    ensures SomeIfAny(c).Some? ==> SomeIfAny(c) == Some(c)
  {
  }

  lemma JoinCarries(db: Db, l: Op, r: Op, p: Part, e: nat, build: seq<Cluster>, c: Cluster)
    requires PartOk(p) && c.block == e / BLOCK && !IsRef(l)
    requires Carries(db, l, p, Lookup(build, e / BLOCK), e) && Carries(db, r, p, Some(c), e)
    requires Lookup(build, e / BLOCK).Some? ==> Lookup(build, e / BLOCK).value.block == e / BLOCK
    ensures Carries(db, Join(l, r), p, Consume(db, JoinStage(build), c), e)
    ensures Carries(db, LeftFilterJoin(l, r), p, Consume(db, FilterStage(build), c), e)
  {
    hide BlockOffset;
    var b := Lookup(build, e / BLOCK);
    if b.Some? {
      ArgsAppend(b.value.columns, c.columns, e / BLOCK, e % BLOCK);
      AnyIn(Cluster(c.block, b.value.enabled * c.enabled, b.value.columns + c.columns), e);
      AnyIn(Cluster(c.block, b.value.enabled * c.enabled, b.value.columns), e);
    }
  }

  lemma TagCarries(db: Db, child: Op, tag: string, has: bool, onColumn: bool, p: Part, e: nat, c: Cluster)
    requires PartOk(p) && c.block == e / BLOCK && Carries(db, child, p, Some(c), e) && (onColumn <==> IsRef(child))
    ensures Carries(db, TagFilter(child, tag, has, onColumn), p,
                    Consume(db, if onColumn then ColumnStage(TableOf(db.tags, tag), has) else TagStage(TableOf(db.tags, tag), has), c), e)
  {
    hide BlockOffset, Args;
    var tags := TableOf(db.tags, tag);
    if onColumn {
      var targets := TargetsOf(c);
      AnyIn(c.(enabled := set i | i in c.enabled && i in targets && TagHas(tags, targets[i]) == has), e);
    } else {
      var bits := Bits(tags, c.block);
      var on := if bits.Some? then bits.value else {};
      assert TagHas(tags, e) <==> e % BLOCK in on;
      AnyIn(c.(enabled := if has then c.enabled * on else c.enabled - on), e);
    }
  }

  lemma PredicateCarries(db: Db, child: Op, f: nat, p: Part, e: nat, c: Cluster)
    requires PartOk(p) && c.block == e / BLOCK && Carries(db, child, p, Some(c), e) && !IsRef(child)
    requires KindsMatch(c.columns, ColumnsOf(child))
    ensures Carries(db, PredicateFilter(child, f), p, Consume(db, PredicateStage(f, ColumnsOf(child)), c), e)
  {
    hide BlockOffset, Args, PassedAll, KindsMatch, ColumnsOf;
    PassedIsArgs(c.columns, ColumnsOf(child), c.block, e % BLOCK);
    AnyIn(c.(enabled := set i | i in c.enabled && db.holds(f, PassedAll(ColumnsOf(child), c.columns, c.block, i))), e);
  }

  // ---- the columns of the clusters are those the compiler expects

  /** All clusters of the stream have columns of these kinds. */
  ghost predicate StreamMatches(stream: seq<Cluster>, kinds: seq<ColumnKind>) {
    forall c :: c in stream ==> KindsMatch(c.columns, kinds)
  }

  lemma {:induction false} ScanColumns(blocks: seq<Block>, ctype: string, p: Part)
    requires PartOk(p)
    ensures StreamMatches(ScanStream(blocks, ctype, p), [ComponentColumn(ctype)])
  {
    if blocks != [] { ScanColumns(blocks[1..], ctype, p); }
  }

  lemma {:induction false} RefColumns(blocks: seq<RefBlock>, ref: string, p: Part)
    requires PartOk(p)
    ensures StreamMatches(RefStream(blocks, p), [IdColumn(ref)])
  {
    if blocks != [] { RefColumns(blocks[1..], ref, p); }
  }

  lemma {:induction false} PushColumns(db: Db, stage: Stage, stream: seq<Cluster>, kinds: seq<ColumnKind>)
    requires forall c :: c in stream && Consume(db, stage, c).Some? ==> KindsMatch(Consume(db, stage, c).value.columns, kinds)
    ensures StreamMatches(Push(db, stage, stream), kinds)
  {
    hide Consume, KindsMatch;
    if stream != [] { PushColumns(db, stage, stream[1..], kinds); }
  }

  lemma JoinedColumns(build: seq<Cluster>, stream: seq<Cluster>, left: seq<ColumnKind>, right: seq<ColumnKind>)
    requires StreamMatches(build, left) && StreamMatches(stream, right)
    ensures forall db, c :: c in stream && Consume(db, JoinStage(build), c).Some? ==>
              KindsMatch(Consume(db, JoinStage(build), c).value.columns, left + right)
    ensures forall db, c :: c in stream && Consume(db, FilterStage(build), c).Some? ==>
              KindsMatch(Consume(db, FilterStage(build), c).value.columns, left)
  {
    hide Lookup;
    forall block ensures Lookup(build, block).Some? ==> KindsMatch(Lookup(build, block).value.columns, left) { LookupIn(build, block); }
  }

  /** A gather's columns hold the types of the gathered operator, as references. */
  lemma {:induction false} GatheredColumns(child: Op, targets: map<nat, nat>)
    requires OpOk(child) && !IsRef(child)
    ensures KindsMatch(References(Types(child), targets), AsReferences(ColumnsOf(child)))
  {
    NamedColumns(child);
    ReferenceKinds(Types(child), ColumnsOf(child), targets);
  }

  function TypeOf(kind: ColumnKind): string {
    match kind case ComponentColumn(t) => t case ReferenceColumn(t) => t case IdColumn(r) => r
  }

  ghost predicate Named(types: seq<string>, kinds: seq<ColumnKind>) {
    |types| == |kinds| && forall i :: 0 <= i < |kinds| ==> TypeOf(kinds[i]) == types[i]
  }

  lemma {:induction false} AsReferencesAt(kinds: seq<ColumnKind>, i: nat)
    requires i < |kinds|
    ensures |AsReferences(kinds)| == |kinds| && AsReferences(kinds)[i] == ReferenceColumn(TypeOf(kinds[i]))
  {
    AsReferencesLength(kinds[..|kinds| - 1]);
    if i < |kinds| - 1 { AsReferencesAt(kinds[..|kinds| - 1], i); }
  }

  lemma {:induction false} AsReferencesLength(kinds: seq<ColumnKind>)
    ensures |AsReferences(kinds)| == |kinds|
  {
    if kinds != [] { AsReferencesLength(kinds[..|kinds| - 1]); }
  }

  lemma {:induction false} NamedColumns(op: Op)
    requires OpOk(op) && !IsRef(op)
    ensures Named(Types(op), ColumnsOf(op))
  {
    match op {
      case Scan(_) =>
      case RefScan(_) =>
      case Join(l, r) => NamedColumns(l); NamedColumns(r);
      case LeftFilterJoin(l, _) => NamedColumns(l);
      case TagFilter(child, _, _, _) => NamedColumns(child);
      case PredicateFilter(child, _) => NamedColumns(child);
      case Gather(child, _) =>
        NamedColumns(child);
        AsReferencesLength(ColumnsOf(child));
        forall i | 0 <= i < |ColumnsOf(child)| ensures TypeOf(AsReferences(ColumnsOf(child))[i]) == Types(child)[i] {
          AsReferencesAt(ColumnsOf(child), i);
        }
    }
  }

  lemma {:induction false} ReferencesAt(types: seq<string>, targets: map<nat, nat>, i: nat)
    requires i < |types|
    ensures |References(types, targets)| == |types| && References(types, targets)[i] == Reference(types[i], targets)
  {
    ReferencesLength(types, targets);
    if i > 0 { ReferencesAt(types[1..], targets, i - 1); }
  }

  lemma {:induction false} ReferencesLength(types: seq<string>, targets: map<nat, nat>)
    ensures |References(types, targets)| == |types|
  {
    if types != [] { ReferencesLength(types[1..], targets); }
  }

  lemma ReferenceKinds(types: seq<string>, kinds: seq<ColumnKind>, targets: map<nat, nat>)
    requires Named(types, kinds)
    ensures KindsMatch(References(types, targets), AsReferences(kinds))
  {
    ReferencesLength(types, targets);
    AsReferencesLength(kinds);
    forall i: nat | i < |types| ensures IsKind(References(types, targets)[i], AsReferences(kinds)[i]) {
      ReferencesAt(types, targets, i);
      AsReferencesAt(kinds, i);
    }
  }

  /** In every thread, each cluster an operator hands on has exactly the columns the compiler computed for the operator. */
  lemma {:induction false} RunColumns(db: Db, op: Op, p: Part)
    requires OpOk(op) && PartOk(p)
    ensures StreamMatches(Run(db, op, p), ColumnsOf(op))
    decreases op
  {
    hide KindsMatch, Push, AsReferences, FillAll, RefStream, ScanStream;
    match op {
      case Scan(t) => ScanColumns(TableOf(db.tables, t), t, p);
      case RefScan(r) => RefColumns(TableOf(db.refs, r), r, p);
      case Join(l, r) =>
        RunColumns(db, l, p);
        RunColumns(db, r, p);
        JoinedColumns(Run(db, l, p), Run(db, r, p), ColumnsOf(l), ColumnsOf(r));
        PushColumns(db, JoinStage(Run(db, l, p)), Run(db, r, p), ColumnsOf(op));
      case LeftFilterJoin(l, r) =>
        RunColumns(db, l, p);
        RunColumns(db, r, p);
        JoinedColumns(Run(db, l, p), Run(db, r, p), ColumnsOf(l), ColumnsOf(r));
        PushColumns(db, FilterStage(Run(db, l, p)), Run(db, r, p), ColumnsOf(op));
      case TagFilter(child, tag, has, onColumn) =>
        RunColumns(db, child, p);
        var stage := if onColumn then ColumnStage(TableOf(db.tags, tag), has) else TagStage(TableOf(db.tags, tag), has);
        PushColumns(db, stage, Run(db, child, p), ColumnsOf(op));
      case PredicateFilter(child, f) =>
        RunColumns(db, child, p);
        PushColumns(db, PredicateStage(f, ColumnsOf(child)), Run(db, child, p), ColumnsOf(op));
      case Gather(child, table) =>
        forall targets ensures KindsMatch(References(Types(child), targets), ColumnsOf(op)) { GatheredColumns(child, targets); }
        var temp := FillAll(Shares(db, child, p, p.stride), p, [], Run(db, table, p));
        PushColumns(db, TempStage(Types(child)), RefStream(temp, p), ColumnsOf(op));
    }
  }

  lemma {:induction false} ReferenceArgs(types: seq<string>, targets: map<nat, nat>, block: nat, offset: nat)
    requires offset in targets
    ensures Args(References(types, targets), block, offset) == Pointers(types, targets[offset])
  {
    if types != [] {
      ReferenceArgs(types[1..], targets, block, offset);
      var rest := References(types[1..], targets);
      assert References(types, targets)[1..] == rest;
    }
  }

  lemma {:induction false} ShareAt(db: Db, op: Op, p: Part, n: nat, u: nat)
    requires p.chunkSize > 0 && p.stride > 0 && u < n
    ensures Shares(db, op, p, n)[u] == Run(db, op, p.(offset := u))
    decreases n
  {
    if u < n - 1 { ShareAt(db, op, p, n - 1, u); }
  }

  /** The one hash table that is consulted holds the target exactly when its operator lets it through. */
  lemma TargetSeen(db: Db, child: Op, p: Part, target: nat, u: nat)
    requires PartOk(p) && u == BlockOffset(target / BLOCK, p.chunkSize, p.stride) < p.stride
    requires Carries(db, child, p.(offset := u), Lookup(Run(db, child, p.(offset := u)), target / BLOCK), target)
    ensures TargetThere(Shares(db, child, p, p.stride), p, target) <==> Sees(db, child, target)
  {
    hide Run, BlockOffset;
    ShareAt(db, child, p, p.stride, u);
  }

  /** The block of a temporary table has the found slots. */
  lemma TempLookup(shares: seq<seq<Cluster>>, p: Part, stream: seq<Cluster>, block: nat)
    requires PartOk(p) && StreamOk(stream, p)
    ensures StreamOk(RefStream(FillAll(shares, p, [], stream), p), p)
    ensures Lookup(RefStream(FillAll(shares, p, [], stream), p), block)
            == (var c := Lookup(stream, block);
                if c.Some? && Found(shares, p, c.value) != map[]
                then Some(Cluster(block, Found(shares, p, c.value).Keys, [Ids(Found(shares, p, c.value))])) else None)
  {
    hide BlockOffset, FillAll, RefStream, Found, RefBlocksOk;
    var temp := FillAll(shares, p, [], stream);
    TempOk(shares, p, stream);
    RefOk(temp, p);
    RefLookup(temp, p, block);
    FillAllBits(shares, p, [], stream, block);
    LookupIn(stream, block);
  }

  lemma FoundCarries(db: Db, child: Op, table: Op, p: Part, e: nat, c: Cluster, shares: seq<seq<Cluster>>)
    requires PartOk(p) && c.block == e / BLOCK && Carries(db, table, p, Some(c), e) && IsRef(table)
    requires Target(db, table, e).Some? ==>
               (TargetThere(shares, p, Target(db, table, e).value) <==> Sees(db, child, Target(db, table, e).value))
    ensures var found := Found(shares, p, c);
            Carries(db, Gather(child, table), p, Some(Cluster(c.block, found.Keys, References(Types(child), found))), e)
  {
    hide BlockOffset, TargetThere, Args, Types, References, Pointers;
    var found := Found(shares, p, c);
    if e % BLOCK in found { ReferenceArgs(Types(child), found, c.block, e % BLOCK); }
  }

  lemma EmptyCarries(db: Db, op: Op, p: Part, e: nat, c: Cluster)
    requires PartOk(p) && Carries(db, op, p, Some(c), e) && c.enabled == {}
    ensures Carries(db, op, p, None, e)
  {
    hide BlockOffset, Sees, ArgsOf;
  }

  /** The slots of the temporary tables, and the components they point to. */
  lemma GatherCarries(db: Db, child: Op, table: Op, p: Part, e: nat, stream: seq<Cluster>, shares: seq<seq<Cluster>>)
    requires PartOk(p) && StreamOk(stream, p) && Carries(db, table, p, Lookup(stream, e / BLOCK), e) && IsRef(table)
    requires Target(db, table, e).Some? ==>
               (TargetThere(shares, p, Target(db, table, e).value) <==> Sees(db, child, Target(db, table, e).value))
    ensures StreamOk(RefStream(FillAll(shares, p, [], stream), p), p)
    ensures var c := Lookup(RefStream(FillAll(shares, p, [], stream), p), e / BLOCK);
            Carries(db, Gather(child, table), p, if c.Some? then Consume(db, TempStage(Types(child)), c.value) else None, e)
  {
    hide BlockOffset, Carries, Types, References, Found, FillAll, RefStream, StreamOk, Sees;
    TempLookup(shares, p, stream, e / BLOCK);
    LookupIn(stream, e / BLOCK);
    var c := Lookup(stream, e / BLOCK);
    if c.Some? {
      FoundCarries(db, child, table, p, e, c.value, shares);
      var found := Found(shares, p, c.value);
      if found == map[] { EmptyCarries(db, Gather(child, table), p, e, Cluster(c.value.block, found.Keys, References(Types(child), found))); }
    } else {
      GatherNothing(db, child, table, p, e);
    }
  }

  lemma GatherNothing(db: Db, child: Op, table: Op, p: Part, e: nat)
    requires PartOk(p) && Carries(db, table, p, None, e)
    ensures Carries(db, Gather(child, table), p, None, e)
  {
    hide BlockOffset, Carries;
    assert Sees(db, Gather(child, table), e) ==> Sees(db, table, e);
    NotCarried(db, table, Gather(child, table), p, e);
  }

  lemma OffsetBelow(block: nat, p: Part)
    requires PartOk(p)
    ensures BlockOffset(block, p.chunkSize, p.stride) < p.stride
  {
  }

  /** A missing cluster carries nothing, so what is consumed from it carries nothing either. */
  lemma NothingPushed(db: Db, stage: Stage, stream: seq<Cluster>, p: Part, e: nat)
    requires StreamOk(stream, p)
    ensures StreamOk(Push(db, stage, stream), p)
    ensures Lookup(Push(db, stage, stream), e / BLOCK)
            == if Lookup(stream, e / BLOCK).Some? then Consume(db, stage, Lookup(stream, e / BLOCK).value) else None
    ensures Lookup(stream, e / BLOCK).Some? ==> Lookup(stream, e / BLOCK).value.block == e / BLOCK
  {
    PushOk(db, stage, stream, p);
    PushLookup(db, stage, stream, e / BLOCK);
    LookupIn(stream, e / BLOCK);
  }

  /**
   * In every thread, the clusters an operator hands on hold exactly the entities it lets through whose block belongs
   * to that thread, each in a single cluster, with the right component pointers.
   */
  lemma {:induction false} RunCarries(db: Db, op: Op, p: Part, e: nat)
    requires OpOk(op) && DbOk(db, p.stride) && PartOk(p)
    ensures StreamOk(Run(db, op, p), p) && Carries(db, op, p, Lookup(Run(db, op, p), e / BLOCK), e)
    decreases op
  {
    hide Carries, StreamOk, DbOk, Consume, BlockOffset, Push;
    match op {
      case Scan(t) => ScanCarries(db, t, p, e);
      case RefScan(r) => RefCarries(db, r, p, e);
      case Join(l, r) => RunJoin(db, op, l, r, p, e, JoinStage(Run(db, l, p)));
      case LeftFilterJoin(l, r) => RunJoin(db, op, l, r, p, e, FilterStage(Run(db, l, p)));
      case TagFilter(child, tag, has, onColumn) =>
        RunCarries(db, child, p, e);
        var stage := if onColumn then ColumnStage(TableOf(db.tags, tag), has) else TagStage(TableOf(db.tags, tag), has);
        NothingPushed(db, stage, Run(db, child, p), p, e);
        var c := Lookup(Run(db, child, p), e / BLOCK);
        if c.Some? { TagCarries(db, child, tag, has, onColumn, p, e, c.value); } else { NotCarried(db, child, op, p, e); }
      case PredicateFilter(child, f) =>
        RunCarries(db, child, p, e);
        NothingPushed(db, PredicateStage(f, ColumnsOf(child)), Run(db, child, p), p, e);
        RunColumns(db, child, p);
        LookupIn(Run(db, child, p), e / BLOCK);
        var c := Lookup(Run(db, child, p), e / BLOCK);
        if c.Some? { PredicateCarries(db, child, f, p, e, c.value); } else { NotCarried(db, child, op, p, e); }
      case Gather(child, table) =>
        RunCarries(db, table, p, e);
        var shares := Shares(db, child, p, p.stride);
        var t := Target(db, table, e);
        if t.Some? {
          var u := BlockOffset(t.value / BLOCK, p.chunkSize, p.stride);
          OffsetBelow(t.value / BLOCK, p);
          RunCarries(db, child, p.(offset := u), t.value);
          TargetSeen(db, child, p, t.value, u);
        }
        GatherCarries(db, child, table, p, e, Run(db, table, p), shares);
        NothingPushed(db, TempStage(Types(child)), RefStream(FillAll(shares, p, [], Run(db, table, p)), p), p, e);
    }
  }

  lemma {:induction false} RunJoin(db: Db, op: Op, l: Op, r: Op, p: Part, e: nat, stage: Stage)
    requires OpOk(op) && DbOk(db, p.stride) && PartOk(p) && l < op && r < op
    requires (op == Join(l, r) && stage == JoinStage(Run(db, l, p))) || (op == LeftFilterJoin(l, r) && stage == FilterStage(Run(db, l, p)))
    ensures StreamOk(Push(db, stage, Run(db, r, p)), p)
    ensures Carries(db, op, p, Lookup(Push(db, stage, Run(db, r, p)), e / BLOCK), e)
    decreases op, 0
  {
    hide Carries, StreamOk, DbOk, Consume, BlockOffset, Push, Run;
    RunCarries(db, l, p, e);
    RunCarries(db, r, p, e);
    NothingPushed(db, stage, Run(db, r, p), p, e);
    LookupIn(Run(db, l, p), e / BLOCK);
    var c := Lookup(Run(db, r, p), e / BLOCK);
    if c.Some? { JoinCarries(db, l, r, p, e, Run(db, l, p), c.value); } else { NotCarried(db, r, op, p, e); }
  }

  lemma NotCarried(db: Db, child: Op, op: Op, p: Part, e: nat)
    requires PartOk(p) && Carries(db, child, p, None, e) && (Sees(db, op, e) ==> Sees(db, child, e))
    ensures Carries(db, op, p, None, e)
  {
    hide BlockOffset;
  }
}
