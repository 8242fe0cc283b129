/**
 * The emitted loops: a scan pushes each block through all operators up to the next hash table or the system's call
 * before it turns to the next block. What comes out is what the operators hand on stream by stream.
 */
module QueryLoops {
  import opened Options
  import opened TableIters
  import opened QueryExec
  import opened QueryMeaning
  import opened QueryPlan
  import opened Subplans

  // ---- several operators at once

  /** A whole stream through one stage after the other. */
  ghost function PushAll(db: Db, chain: seq<Stage>, stream: seq<Cluster>): seq<Cluster>
  {
    if chain == [] then stream else PushAll(db, chain[1..], Push(db, chain[0], stream))
  }

  lemma {:induction false} PushAppend(db: Db, stage: Stage, a: seq<Cluster>, b: seq<Cluster>)
    ensures Push(db, stage, a + b) == Push(db, stage, a) + Push(db, stage, b)
  {
    hide Consume;
    if a == [] {
      assert a + b == b;
    } else {
      assert (a + b)[1..] == a[1..] + b;
      PushAppend(db, stage, a[1..], b);
    }
  }

  /** Cluster by cluster or stage by stage: the same comes out in the same order. */
  lemma {:induction false} PushAllAppend(db: Db, chain: seq<Stage>, a: seq<Cluster>, b: seq<Cluster>)
    ensures PushAll(db, chain, a + b) == PushAll(db, chain, a) + PushAll(db, chain, b)
  {
    hide Push;
    if chain != [] {
      PushAppend(db, chain[0], a, b);
      PushAllAppend(db, chain[1..], Push(db, chain[0], a), Push(db, chain[0], b));
    }
  }

  lemma {:induction false} NothingAll(db: Db, chain: seq<Stage>)
    ensures PushAll(db, chain, []) == []
  {
    if chain != [] { NothingAll(db, chain[1..]); }
  }

  lemma OneThrough(db: Db, stage: Stage, c: Cluster)
    ensures Push(db, stage, [c]) == if Consume(db, stage, c).Some? then [Consume(db, stage, c).value] else []
  {
    hide Consume;
    assert [c][1..] == [];
  }

  lemma StageFirst(db: Db, stage: Stage, chain: seq<Stage>, stream: seq<Cluster>)
    ensures PushAll(db, [stage] + chain, stream) == PushAll(db, chain, Push(db, stage, stream))
  {
    assert ([stage] + chain)[1..] == chain;
  }

  lemma {:induction false} CallsAppend(a: seq<Cluster>, b: seq<Cluster>)
    ensures AllCalls(a + b) == AllCalls(a) + AllCalls(b)
  {
    hide CallsOf;
    if a == [] {
      assert a + b == b;
    } else {
      assert (a + b)[1..] == a[1..] + b;
      CallsAppend(a[1..], b);
    }
  }

  lemma {:induction false} FillAppend(shares: seq<seq<Cluster>>, p: Part, temp: seq<RefBlock>, a: seq<Cluster>, b: seq<Cluster>)
    requires p.chunkSize > 0 && p.stride > 0
    ensures FillAll(shares, p, temp, a + b) == FillAll(shares, p, FillAll(shares, p, temp, a), b)
    decreases |a|
  {
    hide Fill;
    if a == [] {
      assert a + b == b;
    } else {
      assert (a + b)[1..] == a[1..] + b;
      FillAppend(shares, p, Fill(shares, p, temp, a[0]), a[1..], b);
    }
  }

  lemma FillOne(shares: seq<seq<Cluster>>, p: Part, temp: seq<RefBlock>, c: Cluster)
    requires p.chunkSize > 0 && p.stride > 0
    ensures FillAll(shares, p, temp, [c]) == Fill(shares, p, temp, c)
  {
    hide Fill;
    assert [c][1..] == [];
    assert FillAll(shares, p, Fill(shares, p, temp, c), []) == Fill(shares, p, temp, c);
  }

  lemma OneCall(c: Cluster)
    ensures AllCalls([c]) == CallsOf(c, BLOCK)
  {
    hide CallsOf;
    assert [c][1..] == [];
    assert AllCalls([]) == [];
  }

  // ---- where clusters end up

  /** The end of a pipeline: a hash table being built, the temporary tables being filled, or the calls of the system. */
  datatype Use = Build | FillTables(shares: seq<seq<Cluster>>, part: Part) | CallSystem(kinds: seq<ColumnKind>)

  ghost predicate UseOk(use: Use) {
    use.FillTables? ==> use.part.chunkSize > 0 && use.part.stride > 0
  }

  /** The columns are those that the code emitted for the system's call expects. */
  ghost predicate Expected(use: Use, stream: seq<Cluster>) {
    use.CallSystem? ==> StreamMatches(stream, use.kinds)
  }

  class Sink {
    const use: Use
    var clusters: seq<Cluster>
    var temp: seq<RefBlock>
    var calls: seq<Call>

    constructor (use: Use)
      ensures this.use == use && clusters == [] && temp == [] && calls == []
    {
      this.use := use;
      clusters, temp, calls := [], [], [];
    }

    /** `out` has come in since the sink was as given. */
    ghost predicate Received(clusters: seq<Cluster>, temp: seq<RefBlock>, calls: seq<Call>, out: seq<Cluster>)
      requires UseOk(use)
      reads this
    {
      && this.clusters == (if use.Build? then clusters + out else clusters)
      && this.temp == (if use.FillTables? then FillAll(use.shares, use.part, temp, out) else temp)
      && this.calls == (if use.CallSystem? then calls + AllCalls(out) else calls)
    }

    method Deliver(c: Cluster)
      requires UseOk(use) && Expected(use, [c]) && forall i :: i in c.enabled ==> i < BLOCK
      modifies this
      ensures Received(old(clusters), old(temp), old(calls), [c])
    {
      hide Fill, KindsMatch;
      assert [c][1..] == [];
      match use {
        case Build => clusters := clusters + [c];
        case FillTables(shares, p) =>
          FillOne(shares, p, temp, c);
          temp := Fill(shares, p, temp, c);
        case CallSystem(kinds) =>
          OneCall(c);
          assert c in [c];
          var more := Foreach(kinds, c, |c.enabled|);
          calls := calls + more;
      }
    }

    lemma ReceivedMore(clusters: seq<Cluster>, temp: seq<RefBlock>, calls: seq<Call>, midClusters: seq<Cluster>,
                       midTemp: seq<RefBlock>, midCalls: seq<Call>, out: seq<Cluster>, more: seq<Cluster>)
      requires UseOk(use)
      requires midClusters == (if use.Build? then clusters + out else clusters)
      requires midTemp == (if use.FillTables? then FillAll(use.shares, use.part, temp, out) else temp)
      requires midCalls == (if use.CallSystem? then calls + AllCalls(out) else calls)
      requires Received(midClusters, midTemp, midCalls, more)
      ensures Received(clusters, temp, calls, out + more)
    {
      hide FillAll, AllCalls;
      CallsAppend(out, more);
      if use.FillTables? { FillAppend(use.shares, use.part, temp, out, more); }
    }
  }

  // ---- the loops

  /** One cluster through the remaining operators, as far as it gets. */
  method ConsumeCluster(db: Db, chain: seq<Stage>, c: Cluster, sink: Sink)
    requires UseOk(sink.use) && Expected(sink.use, PushAll(db, chain, [c])) && forall i :: i in c.enabled ==> i < BLOCK
    modifies sink
    ensures sink.Received(old(sink.clusters), old(sink.temp), old(sink.calls), PushAll(db, chain, [c]))
    decreases |chain|
  {
    hide Consume, Expected;
    if chain == [] {
      sink.Deliver(c);
    } else {
      var out := Consume(db, chain[0], c);
      OneThrough(db, chain[0], c);
      ConsumeKeepsBlock(db, chain[0], c);
      if out.Some? {
        ConsumeCluster(db, chain[1..], out.value, sink);
      } else {
        NothingAll(db, chain[1..]);
      }
    }
  }

  lemma NothingReceived(db: Db, chain: seq<Stage>, sink: Sink)
    requires UseOk(sink.use)
    ensures sink.Received(sink.clusters, sink.temp, sink.calls, PushAll(db, chain, []))
  {
    NothingAll(db, chain);
  }

  /** One more cluster of a stream of which `done` has gone through. */
  method ConsumeNext(db: Db, chain: seq<Stage>, c: Cluster, sink: Sink, ghost clusters: seq<Cluster>, ghost temp: seq<RefBlock>,
                     ghost calls: seq<Call>, ghost done: seq<Cluster>)
    requires UseOk(sink.use) && Expected(sink.use, PushAll(db, chain, [c])) && (forall i :: i in c.enabled ==> i < BLOCK)
    requires sink.Received(clusters, temp, calls, PushAll(db, chain, done))
    modifies sink
    ensures sink.Received(clusters, temp, calls, PushAll(db, chain, done + [c]))
  {
    hide PushAll, FillAll, AllCalls, Expected;
    ghost var midClusters, midTemp, midCalls := sink.clusters, sink.temp, sink.calls;
    ConsumeCluster(db, chain, c, sink);
    sink.ReceivedMore(clusters, temp, calls, midClusters, midTemp, midCalls, PushAll(db, chain, done), PushAll(db, chain, [c]));
    PushAllAppend(db, chain, done, [c]);
  }

  /** What fits in the whole stream fits in every cluster of it. */
  lemma PartExpected(db: Db, chain: seq<Stage>, use: Use, a: seq<Cluster>, c: Cluster, b: seq<Cluster>)
    requires Expected(use, PushAll(db, chain, a + [c] + b))
    ensures Expected(use, PushAll(db, chain, [c]))
  {
    hide PushAll, KindsMatch;
    PushAllAppend(db, chain, a + [c], b);
    PushAllAppend(db, chain, a, [c]);
  }

  lemma NotCalling(db: Db, use: Use, chain: seq<Stage>, stream: seq<Cluster>)
    requires !use.CallSystem?
    ensures Expected(use, PushAll(db, chain, stream))
  {
  }

  lemma SlotsSmall(blocks: seq<Block>, stride: nat, i: nat)
    requires BlocksOk(blocks, stride) && i < |blocks|
    ensures forall o :: o in blocks[i].enabled ==> o < BLOCK
  {
  }

  lemma TargetSlotsSmall(blocks: seq<RefBlock>, stride: nat, i: nat)
    requires RefBlocksOk(blocks, stride) && i < |blocks|
    ensures forall o :: o in blocks[i].targets.Keys ==> o < BLOCK
  {
  }

  lemma ScanNext(blocks: seq<Block>, i: nat, ctype: string, p: Part, done: seq<Cluster>)
    requires i < |blocks| && p.chunkSize > 0 && p.stride > 0
    ensures done + ScanStream(blocks[i..], ctype, p)
         == done + (if IsSelected(blocks[i].id, p.chunkSize, p.offset, p.stride)
                    then [Cluster(blocks[i].id, blocks[i].enabled, [Component(ctype)])] else [])
            + ScanStream(blocks[i + 1..], ctype, p)
  {
    hide IsSelected;
    assert blocks[i..][0] == blocks[i] && blocks[i..][1..] == blocks[i + 1..];
  }

  lemma RefScanNext(blocks: seq<RefBlock>, i: nat, p: Part, done: seq<Cluster>)
    requires i < |blocks| && p.chunkSize > 0 && p.stride > 0
    ensures done + RefStream(blocks[i..], p)
         == done + (if IsSelected(blocks[i].id, p.chunkSize, p.offset, p.stride)
                    then [Cluster(blocks[i].id, blocks[i].targets.Keys, [Ids(blocks[i].targets)])] else [])
            + RefStream(blocks[i + 1..], p)
  {
    hide IsSelected;
    assert blocks[i..][0] == blocks[i] && blocks[i..][1..] == blocks[i + 1..];
  }

  lemma ScanEnds(blocks: seq<Block>, ctype: string, p: Part, done: seq<Cluster>)
    requires p.chunkSize > 0 && p.stride > 0
    ensures done + ScanStream(blocks[|blocks|..], ctype, p) == done && blocks[0..] == blocks
  {
  }

  lemma RefScanEnds(blocks: seq<RefBlock>, p: Part, done: seq<Cluster>)
    requires p.chunkSize > 0 && p.stride > 0
    ensures done + RefStream(blocks[|blocks|..], p) == done && blocks[0..] == blocks
  {
  }

  /** The loop over the blocks of a component table. */
  method ProduceScan(db: Db, blocks: seq<Block>, ctype: string, p: Part, chain: seq<Stage>, sink: Sink)
    requires UseOk(sink.use) && BlocksOk(blocks, p.stride) && PartOk(p)
    requires Expected(sink.use, PushAll(db, chain, ScanStream(blocks, ctype, p)))
    modifies sink
    ensures sink.Received(old(sink.clusters), old(sink.temp), old(sink.calls), PushAll(db, chain, ScanStream(blocks, ctype, p)))
  {
    hide IsSelected, PushAll, Sink.Received, ScanStream, Expected, BlocksOk, UseOk;
    ghost var done: seq<Cluster> := [];
    NothingReceived(db, chain, sink);
    ScanEnds(blocks, ctype, p, done);
    var i := 0;
    while i < |blocks|
      invariant 0 <= i <= |blocks| && done + ScanStream(blocks[i..], ctype, p) == ScanStream(blocks, ctype, p)
      invariant sink.Received(old(sink.clusters), old(sink.temp), old(sink.calls), PushAll(db, chain, done))
    {
      ScanNext(blocks, i, ctype, p, done);
      if IsSelected(blocks[i].id, p.chunkSize, p.offset, p.stride) {
        var c := Cluster(blocks[i].id, blocks[i].enabled, [Component(ctype)]);
        PartExpected(db, chain, sink.use, done, c, ScanStream(blocks[i + 1..], ctype, p));
        SlotsSmall(blocks, p.stride, i);
        ConsumeNext(db, chain, c, sink, old(sink.clusters), old(sink.temp), old(sink.calls), done);
        done := done + [c];
      }
      i := i + 1;
    }
    ScanEnds(blocks, ctype, p, done);
  }

  /** The loop over the blocks of a reference table, or of the temporary tables of a gather. */
  method ProduceRefScan(db: Db, blocks: seq<RefBlock>, p: Part, chain: seq<Stage>, sink: Sink)
    requires UseOk(sink.use) && RefBlocksOk(blocks, p.stride) && PartOk(p)
    requires Expected(sink.use, PushAll(db, chain, RefStream(blocks, p)))
    modifies sink
    ensures sink.Received(old(sink.clusters), old(sink.temp), old(sink.calls), PushAll(db, chain, RefStream(blocks, p)))
  {
    hide IsSelected, PushAll, Sink.Received, RefStream, Expected, RefBlocksOk, UseOk;
    ghost var done: seq<Cluster> := [];
    NothingReceived(db, chain, sink);
    RefScanEnds(blocks, p, done);
    var i := 0;
    while i < |blocks|
      invariant 0 <= i <= |blocks| && done + RefStream(blocks[i..], p) == RefStream(blocks, p)
      invariant sink.Received(old(sink.clusters), old(sink.temp), old(sink.calls), PushAll(db, chain, done))
    {
      RefScanNext(blocks, i, p, done);
      if IsSelected(blocks[i].id, p.chunkSize, p.offset, p.stride) {
        var c := Cluster(blocks[i].id, blocks[i].targets.Keys, [Ids(blocks[i].targets)]);
        PartExpected(db, chain, sink.use, done, c, RefStream(blocks[i + 1..], p));
        TargetSlotsSmall(blocks, p.stride, i);
        ConsumeNext(db, chain, c, sink, old(sink.clusters), old(sink.temp), old(sink.calls), done);
        done := done + [c];
      }
      i := i + 1;
    }
    RefScanEnds(blocks, p, done);
  }

  /** Builds the hash table of an operator in the thread with share `p`. */
  method BuildTable(db: Db, op: Op, p: Part) returns (table: seq<Cluster>)
    requires OpOk(op) && DbOk(db, p.stride) && PartOk(p)
    ensures table == Run(db, op, p)
    decreases op, 1
  {
    var sink := new Sink(Use.Build);
    NotCalling(db, sink.use, [], Run(db, op, p));
    Produce(db, op, p, [], sink);
    table := sink.clusters;
  }

  /** The hash tables of all threads, which the barrier before a gather's probe waits for. */
  method BuildAll(db: Db, op: Op, p: Part) returns (shares: seq<seq<Cluster>>)
    requires OpOk(op) && DbOk(db, p.stride) && PartOk(p)
    ensures shares == Shares(db, op, p, p.stride)
    decreases op, 2
  {
    hide Run, OpOk, DbOk;
    shares := [];
    var u := 0;
    while u < p.stride
      invariant 0 <= u <= p.stride && shares == Shares(db, op, p, u)
    {
      var table := BuildTable(db, op, p.(offset := u));
      shares := shares + [table];
      u := u + 1;
    }
  }

  /** The loops of an operator whose clusters go through `chain` into `sink`. */
  method Produce(db: Db, op: Op, p: Part, chain: seq<Stage>, sink: Sink)
    requires UseOk(sink.use) && OpOk(op) && DbOk(db, p.stride) && PartOk(p) && Expected(sink.use, PushAll(db, chain, Run(db, op, p)))
    modifies sink
    ensures sink.Received(old(sink.clusters), old(sink.temp), old(sink.calls), PushAll(db, chain, Run(db, op, p)))
    decreases op, 0
  {
    hide Push, DbOk, Expected;
    match op {
      case Scan(t) =>
        TablesOk(db, t, p);
        ProduceScan(db, TableOf(db.tables, t), t, p, chain, sink);
      case RefScan(r) =>
        TablesOk(db, r, p);
        ProduceRefScan(db, TableOf(db.refs, r), p, chain, sink);
      case Join(l, r) =>
        var build := BuildTable(db, l, p);
        StageFirst(db, JoinStage(build), chain, Run(db, r, p));
        Produce(db, r, p, [JoinStage(build)] + chain, sink);
      case LeftFilterJoin(l, r) =>
        var build := BuildTable(db, l, p);
        StageFirst(db, FilterStage(build), chain, Run(db, r, p));
        Produce(db, r, p, [FilterStage(build)] + chain, sink);
      case TagFilter(child, tag, has, onColumn) =>
        var stage := if onColumn then ColumnStage(TableOf(db.tags, tag), has) else TagStage(TableOf(db.tags, tag), has);
        StageFirst(db, stage, chain, Run(db, child, p));
        Produce(db, child, p, [stage] + chain, sink);
      case PredicateFilter(child, f) =>
        StageFirst(db, PredicateStage(f, ColumnsOf(child)), chain, Run(db, child, p));
        Produce(db, child, p, [PredicateStage(f, ColumnsOf(child))] + chain, sink);
      case Gather(child, table) =>
        var shares := BuildAll(db, child, p);
        var filling := new Sink(FillTables(shares, p));
        NotCalling(db, filling.use, [], Run(db, table, p));
        Produce(db, table, p, [], filling);
        FilledOk(db, table, shares, p);
        StageFirst(db, TempStage(Types(child)), chain, RefStream(filling.temp, p));
        ProduceRefScan(db, filling.temp, p, [TempStage(Types(child))] + chain, sink);
    }
  }

  lemma TablesOk(db: Db, name: string, p: Part)
    requires DbOk(db, p.stride)
    ensures BlocksOk(TableOf(db.tables, name), p.stride) && RefBlocksOk(TableOf(db.refs, name), p.stride)
  {
  }

  lemma FilledOk(db: Db, table: Op, shares: seq<seq<Cluster>>, p: Part)
    requires OpOk(table) && DbOk(db, p.stride) && PartOk(p)
    ensures RefBlocksOk(FillAll(shares, p, [], Run(db, table, p)), p.stride)
  {
    hide Run, DbOk, RefBlocksOk, FillAll, Carries, StreamOk;
    RunCarries(db, table, p, 0);
    TempOk(shares, p, Run(db, table, p));
  }

  /**
   * A statement from its matches to its calls in one thread: the operator array is built, its loops run, and the
   * system has been called once for exactly the qualifying entities of the thread's blocks.
   */
  method RunStatement(db: Db, ms: seq<EntityMatch>, p: Part) returns (calls: seq<Call>)
    requires StmtOk(ms) && DbOk(db, p.stride) && PartOk(p)
    ensures NoEntityTwice(calls) && SlotOrder(calls)
    ensures forall call :: call in calls <==>
              && Qualifies(db, ms, call.entity) && call.args == Params(db, ms, call.entity)
              && BlockOffset(call.entity / BLOCK, p.chunkSize, p.stride) == p.offset
  {
    hide Run, Qualifies, Params, BlockOffset, DbOk, StmtOk, PlanOf, TreeOf, AllCalls;
    var plan := new Subplan();
    plan.Init(ms);
    var sink := new Sink(CallSystem(plan.nodes[plan.root].columns));
    var op := TreeOf(plan.nodes, plan.root);
    PlanMeans(db, ms, 0);
    RunColumns(db, op, p);
    Produce(db, op, p, [], sink);
    calls := sink.calls;
    assert calls == AllCalls(Run(db, op, p));
    forall call ensures call in calls <==>
              && Qualifies(db, ms, call.entity) && call.args == Params(db, ms, call.entity)
              && BlockOffset(call.entity / BLOCK, p.chunkSize, p.stride) == p.offset
    {
      StatementCalls(db, ms, p, call);
    }
    StatementCalls(db, ms, p, Call(0, []));
  }
}
