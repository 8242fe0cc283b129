/** What the writer does to a reference once its collection is over, its stores through a
    pointer it holds, and the allocation of a reference. */
module TxPoolWriter {
  import opened Options
  import TM = TxManager
  import opened TxPoolState
  import opened TxPoolSteps
  import opened TxPoolInvariant
  import opened TxPoolFrame
  import opened TxPoolLocal
  import opened TxPoolReaders
  import opened TxPoolGc
  import opened TxPoolConsolidate

  // ---- the running writer is newer than everything written

  lemma WriterFacts(s: State, w: TM.Tx)
    requires TM.Inv(s.mgr) && WriterTx(s, w)
    ensures w.version == w.id > s.mgr.lastCommitted
    ensures forall u :: u in s.mgr.running && u.kind.ReadWrite? ==> u == w
    ensures TM.SafeBound(s.mgr, w.orv)
  {
    var i :| 0 <= i < |s.mgr.running| && s.mgr.running[i] == w;
    assert TM.TxOk(s.mgr, s.mgr.running[i]);
    forall u | u in s.mgr.running && u.kind.ReadWrite? ensures u == w {
      var j :| 0 <= j < |s.mgr.running| && s.mgr.running[j] == u;
      assert i < j ==> TM.PairOk(s.mgr.running[i], s.mgr.running[j]);
      assert j < i ==> TM.PairOk(s.mgr.running[j], s.mgr.running[i]);
    }
  }

  lemma WriterTop(s: State, w: TM.Tx, ts: nat)
    requires TM.Inv(s.mgr) && SeenOk(s) && WriterTx(s, w) && Written(s, ts)
    ensures ts <= w.id
  {
    WriterFacts(s, w);
  }

  lemma NewestSource(s: State, r: Addr)
    requires r in s.refs && RefOk(s, r) && Faithful(s, r)
    ensures Readable(s, Source(s, r, 0)) && Content(s, Source(s, r, 0)) == s.refs[r].hist[0]
  {
    hide RefOk, Faithful;
    if s.refs[r].chain == [] { NewestRoot(s, r); } else { NewestValue(s, r); }
  }

  /** A writer's walk stops at the newest version. */
  lemma WriterCandidate(s: State, r: Addr, w: TM.Tx)
    requires TM.Inv(s.mgr) && SeenOk(s) && WriterTx(s, w) && r in s.refs && RefOk(s, r) && Faithful(s, r)
    ensures Linked(s, r) && Candidate(s, r, w.version) == Source(s, r, 0)
    ensures s.refs[r].hist[0].ts <= w.version == w.id
  {
    hide Faithful;
    WriterFacts(s, w);
    WriterTop(s, w, s.refs[r].hist[0].ts);
    NewestSource(s, r);
  }

  /** Of all the accesses and assertions that end a dereference or a release, only the one
      on the newest version of a release can fail, and exactly when it is not allowed. */
  lemma FinishFaults(s: State, block: Addr, ptr: Addr)
    requires Inv(s) && s.mutator.Collected?
    ensures FinishDefined(s, s.mutator.op, s.mutator.root, s.mutator.orv) <==> ReleaseAllowed(s, LFinish(block, ptr))
  {
    hide PoolOk, DataOk, DoomedOk, ReadersOk, TM.Inv, SeenOk, Faithful, TombOk;
    var r := s.mutator.root;
    RefInvOf(s, r);
    WriterCandidate(s, r, s.mutator.op.writer);
    NewestSource(s, r);
    HeadPositive(s, r);
  }

  lemma HeadPositive(s: State, r: Addr)
    requires r in s.refs && RefOk(s, r)
    ensures |s.refs[r].hist| > 0
  {
  }

  // ---- a new version in front

  ghost predicate PushShape(s: State, s': State, r: Addr, a: Addr, b: Block, v: Version) {
    && r in s.refs && r in s.blocks && a !in s.blocks && a != r
    && s'.refs == s.refs[r := s.refs[r].(chain := [a] + s.refs[r].chain, hist := [v] + s.refs[r].hist)]
    && s'.blocks == s.blocks[a := b][r := s.blocks[r].(next := Some(a))]
    && s'.role == s.role[a := ChainOf(r)]
    && b.ts == v.ts && b.next == HeadOf(s.refs[r].chain)
    && (forall p :: p in s.data ==> p in s'.data && s'.data[p] == s.data[p])
    && (b.data.Some? <==> v.value.Some?)
    && (b.data.Some? ==> b.data.value !in s.data && b.data.value in s'.data && v.value == Some(s'.data[b.data.value]))
    && s'.mgr == s.mgr && s'.committed == s.committed && s'.seen == s.seen
    && s'.walks == s.walks && s'.held == s.held && s'.doomed == s.doomed
    && (s.mutator.Collected? && s'.mutator.Idle?)
    && |s.refs[r].hist| > 0 && s.refs[r].hist[0].ts < v.ts
  }

  lemma PushStopsUp(s: State, s': State, r: Addr, a: Addr, b: Block, v: Version, at: nat, i: nat)
    requires PushShape(s, s', r, a, b, v) && at < v.ts && StopsAt(s, r, at, i)
    ensures StopsAt(s', r, at, i + 1) && Source(s', r, i + 1) == Source(s, r, i)
  {
    var chain, chain' := s.refs[r].chain, s'.refs[r].chain;
    forall j | 0 <= j < i + 1 ensures chain'[j] in s'.blocks && s'.blocks[chain'[j]].ts > at {
      if j > 0 { assert chain'[j] == chain[j - 1]; }
    }
    if i < |chain| { assert chain'[i + 1] == chain[i]; }
  }

  lemma PushStopsDown(s: State, s': State, r: Addr, a: Addr, b: Block, v: Version, at: nat, i: nat)
    requires PushShape(s, s', r, a, b, v) && Linked(s, r) && StopsAt(s', r, at, i)
    ensures at < v.ts ==> i > 0 && StopsAt(s, r, at, i - 1) && Source(s', r, i) == Source(s, r, i - 1)
    ensures v.ts <= at ==> i == 0
  {
    hide Linked;
    var chain, chain' := s.refs[r].chain, s'.refs[r].chain;
    assert chain'[0] == a && s'.blocks[a].ts == v.ts;
    if at < v.ts {
      forall j | 0 <= j < |chain| ensures chain'[j + 1] == chain[j] && chain[j] in s.blocks && s'.blocks[chain[j]].ts == s.blocks[chain[j]].ts {
        LinkAt(s, r, j);
      }
      forall j | 0 <= j < i - 1 ensures s.blocks[chain[j]].ts > at {
        assert chain'[j + 1] == chain[j];
      }
      if i - 1 < |chain| { assert chain'[i] == chain[i - 1]; }
    }
  }

  lemma LinkAt(s: State, r: Addr, j: nat)
    requires Linked(s, r) && j < |ChainAt(s, r)|
    ensures ChainAt(s, r)[j] in s.blocks
  {
  }

  lemma PushVersionAt(hist: seq<Version>, v: Version, at: nat)
    requires |hist| > 0
    ensures VersionAt([v] + hist, at) == if v.ts <= at then v else VersionAt(hist, at)
  {
    assert ([v] + hist)[1..] == hist;
  }

  lemma PushLinked(s: State, s': State, r: Addr, a: Addr, b: Block, v: Version)
    requires PushShape(s, s', r, a, b, v) && Linked(s, r) && r !in s.refs[r].chain
    ensures Linked(s', r)
  {
    var chain, chain' := s.refs[r].chain, s'.refs[r].chain;
    forall i | 0 <= i < |chain'| ensures chain'[i] in s'.blocks && s'.blocks[chain'[i]].next == Following(chain', i) {
      if i > 0 {
        assert chain'[i] == chain[i - 1];
        assert s.blocks[chain[i - 1]].next == Following(chain, i - 1);
      }
    }
  }

  lemma PushDecreasing(s: State, s': State, r: Addr, a: Addr, b: Block, v: Version)
    requires PushShape(s, s', r, a, b, v) && Decreasing(s, s.refs[r].chain) && r !in s.refs[r].chain
    requires s.refs[r].chain != [] ==> s.blocks[s.refs[r].chain[0]].ts < v.ts
    ensures Decreasing(s', s'.refs[r].chain)
  {
    var chain, chain' := s.refs[r].chain, s'.refs[r].chain;
    assert forall j :: 1 <= j < |chain'| ==> chain'[j] == chain[j - 1];
    assert forall j :: 0 <= j < |chain| ==> s'.blocks[chain[j]] == s.blocks[chain[j]] && s.blocks[chain[j]].ts < v.ts;
  }

  lemma PushHist(s: State, s': State, r: Addr, a: Addr, b: Block, v: Version)
    requires PushShape(s, s', r, a, b, v) && HistOk(s, s.refs[r].hist) && Written(s, v.ts)
    ensures HistOk(s', s'.refs[r].hist)
  {
    var hist, hist' := s.refs[r].hist, s'.refs[r].hist;
    assert forall j :: 1 <= j < |hist'| ==> hist'[j] == hist[j - 1];
    SameWritten(s, s');
    forall j | 0 <= j < |hist'| ensures Written(s', hist'[j].ts) {
      if j > 0 { assert Written(s, hist[j - 1].ts); }
    }
  }

  lemma PushFaithful(s: State, s': State, r: Addr, a: Addr, b: Block, v: Version)
    requires PushShape(s, s', r, a, b, v) && Linked(s, r) && r !in s.refs[r].chain && Faithful(s, r)
    ensures Faithful(s', r)
  {
    forall at: nat, i: nat | s'.refs[r].floor <= at ensures FaithfulAt(s', r, at, i) {
      if StopsAt(s', r, at, i) {
        PushStopsDown(s, s', r, a, b, v, at, i);
        PushVersionAt(s.refs[r].hist, v, at);
        if at < v.ts {
          assert FaithfulAt(s, r, at, i - 1);
          assert Source(s, r, i - 1) in s.blocks;
        }
      }
    }
  }

  lemma PushTomb(s: State, s': State, r: Addr, a: Addr, b: Block, v: Version)
    requires PushShape(s, s', r, a, b, v) && TombOk(s, r) && s'.refs[r].chain[0] == a && r !in s.refs[r].chain
    requires Source(s, r, 0) in s.blocks && s.blocks[Source(s, r, 0)].ts < v.ts && s.blocks[Source(s, r, 0)].data.Some?
    requires b.data.None? ==> s.blocks[r].data.Some?
    requires r in s'.garbage ==> v.value.None?
    ensures TombOk(s', r)
  {
    var chain, chain' := s.refs[r].chain, s'.refs[r].chain;
    assert forall j :: 1 <= j < |chain'| ==> chain'[j] == chain[j - 1];
    assert forall j :: 0 <= j < |chain| ==> s'.blocks[chain[j]] == s.blocks[chain[j]];
    assert s'.refs[r].hist[0] == v;
  }

  lemma PushRef(s: State, s': State, r: Addr, a: Addr, b: Block, v: Version)
    requires PushShape(s, s', r, a, b, v) && RefInv(s, r) && Written(s, v.ts)
    requires s.refs[r].hist[0].value.Some? && (b.data.None? ==> s.blocks[r].data.Some?)
    requires r in s'.garbage ==> v.value.None?
    ensures RefInv(s', r)
  {
    hide HistOk, Faithful, TombOk, Linked, Decreasing;
    RefChain(s, r);
    NewestSource(s, r);
    PushLinked(s, s', r, a, b, v);
    PushDecreasing(s, s', r, a, b, v);
    PushHist(s, s', r, a, b, v);
    PushFaithful(s, s', r, a, b, v);
    PushTomb(s, s', r, a, b, v);
    var chain, chain' := s.refs[r].chain, s'.refs[r].chain;
    assert forall j :: 1 <= j < |chain'| ==> chain'[j] == chain[j - 1];
  }

  lemma PushPool(s: State, s': State, r: Addr, a: Addr, b: Block, v: Version)
    requires PushShape(s, s', r, a, b, v) && PoolOk(s) && r in s.role && s.role[r] == RootOf
    requires s'.garbage == s.garbage || s'.garbage == s.garbage + {r}
    ensures PoolOk(s')
  {
    forall c | c in s'.role ensures RoleOk(s', c) {
      if c != a { assert RoleOk(s, c); }
    }
  }

  lemma PushElsewhere(s: State, s': State, r: Addr, a: Addr, b: Block, v: Version)
    requires PushShape(s, s', r, a, b, v) && s.role.Keys == s.blocks.Keys && r in s.role && s.role[r] == RootOf
    requires s'.garbage == s.garbage || s'.garbage == s.garbage + {r}
    ensures SameElsewhere(s, s', r) && SameZombies(s, s') && s'.refs.Keys == s.refs.Keys
  {
  }

  lemma PushReaders(s: State, s': State, r: Addr, a: Addr, b: Block, v: Version)
    requires TM.Inv(s.mgr) && PushShape(s, s', r, a, b, v) && Linked(s, r) && r !in s.refs[r].chain
    requires s.mgr.lastCommitted < v.ts && SameZombies(s, s')
    ensures ReadersOfKept(s, s', r)
  {
    hide TM.Inv, SameZombies, PushShape, Linked;
    forall t | LiveFor(s, t, r)
      ensures LiveFor(s', t, r)
      ensures forall c :: CursorOk(s, r, t.version, c) ==> CursorOk(s', r, t.version, c)
      ensures forall c :: Good(s, r, t.version, c) && c in s.blocks ==>
                Good(s', r, t.version, c) && c in s'.blocks && s'.blocks[c].data == s.blocks[c].data
    {
      ZeroBound(s);
      ReaderBound(s, t, 0);
      PushHistIs(s, s', r, a, b, v);
      PushVersionAt(s.refs[r].hist, v, t.version);
      forall c | Good(s, r, t.version, c)
        ensures Good(s', r, t.version, c) && c in s.blocks && c in s'.blocks && s'.blocks[c].data == s.blocks[c].data
      {
        PushGood(s, s', r, a, b, v, t.version, c);
      }
      forall c | CursorOk(s, r, t.version, c) ensures CursorOk(s', r, t.version, c) {
        PushCursor(s, s', r, a, b, v, t.version, c);
      }
    }
  }

  lemma ZeroBound(s: State)
    ensures TM.SafeBound(s.mgr, 0)
  {
  }

  lemma PushHistIs(s: State, s': State, r: Addr, a: Addr, b: Block, v: Version)
    requires PushShape(s, s', r, a, b, v)
    ensures r in s.refs && |s.refs[r].hist| > 0
    ensures r in s'.refs && s'.refs[r].hist == [v] + s.refs[r].hist && s'.mgr == s.mgr
  {
  }

  lemma ParkedSameHist(s: State, s': State, r: Addr, at: nat, c: Addr)
    requires r in s.refs && r in s'.refs && |s.refs[r].hist| > 0 && |s'.refs[r].hist| > 0
    requires VersionAt(s'.refs[r].hist, at) == VersionAt(s.refs[r].hist, at)
    requires Live(s.refs[r].hist, at) && Parked(s, r, at, c) && SameZombies(s, s')
    ensures Parked(s', r, at, c) && c in s'.blocks && s'.blocks[c] == s.blocks[c]
  {
  }

  lemma PushGood(s: State, s': State, r: Addr, a: Addr, b: Block, v: Version, at: nat, c: Addr)
    requires PushShape(s, s', r, a, b, v) && Linked(s, r) && r !in s.refs[r].chain && at < v.ts
    requires VersionAt(s'.refs[r].hist, at) == VersionAt(s.refs[r].hist, at)
    requires Live(s.refs[r].hist, at) && SameZombies(s, s') && Good(s, r, at, c)
    ensures Good(s', r, at, c) && c in s.blocks && c in s'.blocks && s'.blocks[c].data == s.blocks[c].data
  {
    if i: nat :| StopsAt(s, r, at, i) && c == Source(s, r, i) {
      PushStopsUp(s, s', r, a, b, v, at, i);
    } else {
      ParkedSameHist(s, s', r, at, c);
    }
  }

  lemma PushPassed(s: State, s': State, r: Addr, a: Addr, b: Block, v: Version, at: nat, i: int)
    requires PushShape(s, s', r, a, b, v) && at < v.ts && Passed(s, r, at, i) && Linked(s, r)
    ensures Passed(s', r, at, i + 1)
    ensures forall j :: 0 <= j < |s.refs[r].chain| ==> s'.refs[r].chain[j + 1] == s.refs[r].chain[j]
    ensures |s'.refs[r].chain| == |s.refs[r].chain| + 1
  {
    var chain, chain' := s.refs[r].chain, s'.refs[r].chain;
    forall j | 0 <= j <= i + 1 ensures chain'[j] in s'.blocks && s'.blocks[chain'[j]].ts > at {
      if j > 0 { assert chain'[j] == chain[j - 1]; }
    }
  }

  lemma PushCursor(s: State, s': State, r: Addr, a: Addr, b: Block, v: Version, at: nat, c: Cursor)
    requires PushShape(s, s', r, a, b, v) && Linked(s, r) && r !in s.refs[r].chain && at < v.ts
    requires VersionAt(s'.refs[r].hist, at) == VersionAt(s.refs[r].hist, at)
    requires Live(s.refs[r].hist, at) && SameZombies(s, s') && CursorOk(s, r, at, c)
    ensures CursorOk(s', r, at, c)
  {
    hide VersionAt, Parked, SameZombies;
    var chain, chain' := s.refs[r].chain, s'.refs[r].chain;
    match c {
      case At(None) => PushPassed(s, s', r, a, b, v, at, |chain| - 1);
      case At(Some(x)) =>
        if i :| 0 <= i < |chain| && chain[i] == x && Passed(s, r, at, i - 1) {
          PushPassed(s, s', r, a, b, v, at, i - 1);
          assert chain'[i + 1] == x && Passed(s', r, at, (i + 1) - 1);
        } else {
          ParkedSameHist(s, s', r, at, x);
        }
      case TooNew(x) =>
        var i :| 0 <= i < |chain| && chain[i] == x && Passed(s, r, at, i);
        PushPassed(s, s', r, a, b, v, at, i);
        assert chain'[i + 1] == x;
      case Chosen(x) => PushGood(s, s', r, a, b, v, at, x);
    }
  }

  lemma PushKeeps(s: State, s': State, r: Addr, a: Addr, b: Block, v: Version)
    requires TM.Inv(s.mgr) && SeenOk(s) && RefsOk(s) && ReadersOk(s) && PoolOk(s) && DoomedOk(s)
    requires PushShape(s, s', r, a, b, v) && RefInv(s, r) && r in s.role && s.role[r] == RootOf && Written(s, v.ts)
    requires s.refs[r].hist[0].value.Some? && (b.data.None? ==> s.blocks[r].data.Some?)
    requires s'.garbage == s.garbage || (s'.garbage == s.garbage + {r} && v.value.None?)
    requires s.mgr.lastCommitted < v.ts
    ensures TM.Inv(s'.mgr) && SeenOk(s') && RefsOk(s') && ReadersOk(s') && PoolOk(s') && DoomedOk(s') && MutatorOk(s')
  {
    hide TM.Inv, SeenOk, RefsOk, ReadersOk, PoolOk, DoomedOk, PushShape, ReadersOfKept, RefOk, Faithful, TombOk, Written, SameElsewhere, SameZombies;
    PushHistIs(s, s', r, a, b, v);
    NotGarbage(s, r);
    PoolKeys(s);
    RefChain(s, r);
    RefLinked(s, r);
    PushRef(s, s', r, a, b, v);
    PushPool(s, s', r, a, b, v);
    PushElsewhere(s, s', r, a, b, v);
    PushReaders(s, s', r, a, b, v);
    LocalStep(s, s', r);
    PushRest(s, s', r, a, b, v);
  }

  lemma PushRest(s: State, s': State, r: Addr, a: Addr, b: Block, v: Version)
    requires PushShape(s, s', r, a, b, v) && DoomedOk(s)
    ensures DoomedOk(s') && MutatorOk(s')
  {
  }

  lemma NotGarbage(s: State, r: Addr)
    requires r in s.refs && TombOk(s, r) && |s.refs[r].hist| > 0 && s.refs[r].hist[0].value.Some?
    ensures r !in s.garbage
  {
  }

  lemma RefLinked(s: State, r: Addr)
    requires r in s.refs && RefOk(s, r)
    ensures Linked(s, r)
  {
  }
}
