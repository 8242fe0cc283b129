/** The ends of a dereference and of a release, stores through a write pointer, allocation. */
module TxPoolFinish {
  import opened Options
  import TM = TxManager
  import opened TxPoolState
  import opened TxPoolSteps
  import opened TxPoolInvariant
  import opened TxPoolFrame
  import opened TxPoolLocal
  import opened TxPoolReaders
  import opened TxPoolGc
  import opened TxPoolConsolidate
  import opened TxPoolWriter

  lemma WriterWritten(s: State, w: TM.Tx)
    requires TM.Inv(s.mgr) && WriterTx(s, w)
    ensures Written(s, w.version) && s.mgr.lastCommitted < w.version
  {
    WriterFacts(s, w);
  }

  /** What a call of a writer knows when its collection is over. */
  lemma CallFacts(s: State) returns (r: Addr, w: TM.Tx)
    requires Inv(s) && s.mutator.Collected?
    ensures r == s.mutator.root && w == s.mutator.op.writer && !s.mutator.op.Collect?
    ensures WriterTx(s, w) && Written(s, w.version) && s.mgr.lastCommitted < w.version == w.id
    ensures r in s.refs && r in s.role && s.role[r] == RootOf && r in s.blocks && RefInv(s, r)
    ensures |s.refs[r].hist| > 0 && s.refs[r].hist[0].value.Some?
    ensures NewestAbove(s, r, s.mutator.orv) && s.blocks[r].ts <= s.refs[r].floor <= s.mgr.lastCommitted
    ensures s.mutator.op.Release? ==> s.blocks[r].data.Some?
    ensures Readable(s, Source(s, r, 0)) && Content(s, Source(s, r, 0)) == s.refs[r].hist[0]
  {
    hide PoolOk, DataOk, DoomedOk, ReadersOk, TM.Inv, SeenOk, Faithful, TombOk, Linked, HistOk, FinishDefined;
    r, w := s.mutator.root, s.mutator.op.writer;
    RefInvOf(s, r);
    RefChain(s, r);
    NewestSource(s, r);
    WriterWritten(s, w);
    WriterFacts(s, w);
  }

  // ---- dereference

  lemma IdleKeeps(s: State, s': State)
    requires Inv(s) && s.mutator.Collected? && s' == s.(mutator := Idle)
    ensures Inv(s')
  {
    hide RefsOk, ReadersOk, TM.Inv, SeenOk;
    forall a | a in s'.role ensures RoleOk(s', a) { assert RoleOk(s, a); }
    assert AllSame(s, s');
    KeepAll(s, s');
  }

  lemma DerefPushes(s: State, w: TM.Tx, r: Addr, orv: nat, block: Addr, ptr: Addr)
    requires s.mutator == Collected(Deref(w, true), r, orv) && FinishDefined(s, Deref(w, true), r, orv)
    requires block !in s.blocks && ptr !in s.data && DataOk(s)
    requires Candidate(s, r, w.version) == Source(s, r, 0) && r !in s.refs[r].chain
    requires s.blocks[Source(s, r, 0)].ts < w.version && Content(s, Source(s, r, 0)) == s.refs[r].hist[0]
    ensures var s' := DoDeref(s, w, true, block, ptr);
      && PushShape(s, s', r, block, Block(w.version, Some(ptr), HeadOf(s.refs[r].chain)),
                   Version(w.version, s.refs[r].hist[0].value))
      && s'.garbage == s.garbage
  {
    hide DataOk;
    assert s.refs[r].chain != [] ==> s.refs[r].chain[0] in s.refs[r].chain;
  }

  lemma DerefData(s: State, w: TM.Tx, r: Addr, orv: nat, block: Addr, ptr: Addr)
    requires s.mutator == Collected(Deref(w, true), r, orv) && FinishDefined(s, Deref(w, true), r, orv)
    requires block !in s.blocks && ptr !in s.data && DataOk(s)
    requires Candidate(s, r, w.version) == Source(s, r, 0) && r !in s.refs[r].chain
    requires s.blocks[Source(s, r, 0)].ts < w.version && Content(s, Source(s, r, 0)) == s.refs[r].hist[0]
    ensures DataOk(DoDeref(s, w, true, block, ptr))
  {
    hide DataOk;
    assert s.refs[r].chain != [] ==> s.refs[r].chain[0] in s.refs[r].chain;
    var b := Block(w.version, Some(ptr), HeadOf(s.refs[r].chain));
    NewData(s, DoDeref(s, w, true, block, ptr), r, block, b, ptr);
  }

  /** A new block with data of its own. */
  lemma NewData(s: State, s': State, r: Addr, a: Addr, b: Block, p: Addr)
    requires DataOk(s) && r in s.blocks && a !in s.blocks && a != r && p !in s.data && b.data == Some(p)
    requires s'.blocks == s.blocks[a := b][r := s.blocks[r].(next := Some(a))]
    requires s'.data.Keys == s.data.Keys + {p} && s'.owner == s.owner[p := a]
    ensures DataOk(s')
  {
  }

  lemma DerefLooks(s: State, w: TM.Tx, r: Addr, orv: nat, block: Addr, ptr: Addr)
    requires s.mutator == Collected(Deref(w, true), r, orv) && FinishDefined(s, Deref(w, true), r, orv)
    requires block !in s.blocks && ptr !in s.data && DataOk(s)
    requires Candidate(s, r, w.version) == Source(s, r, 0) && r !in s.refs[r].chain
    requires s.blocks[Source(s, r, 0)].ts < w.version && Content(s, Source(s, r, 0)) == s.refs[r].hist[0]
    ensures var s' := DoDeref(s, w, true, block, ptr);
      && PushShape(s, s', r, block, Block(w.version, Some(ptr), HeadOf(s.refs[r].chain)),
                   Version(w.version, s.refs[r].hist[0].value))
      && s'.garbage == s.garbage && DataOk(s')
  {
    hide DataOk, PushShape, DoDeref, Candidate, Content;
    DerefPushes(s, w, r, orv, block, ptr);
    DerefData(s, w, r, orv, block, ptr);
  }

  lemma DerefPublish(s: State, w: TM.Tx, r: Addr, orv: nat, block: Addr, ptr: Addr)
    requires s.mutator == Collected(Deref(w, true), r, orv) && FinishDefined(s, Deref(w, true), r, orv)
    requires block !in s.blocks && ptr !in s.data
    requires s.blocks[Candidate(s, r, w.version)].ts < w.version
    requires Inv(s)
    ensures Inv(DoDeref(s, w, true, block, ptr))
  {
    hide RefsOk, PoolOk, DataOk, DoomedOk, ReadersOk, TM.Inv, SeenOk, MutatorOk, RefOk, Faithful, TombOk, PushShape, DoDeref, Candidate,
      NewestAbove, Written, FinishDefined;
    var _, _ := CallFacts(s);
    WriterCandidate(s, r, w);
    RefChain(s, r);
    DerefLooks(s, w, r, orv, block, ptr);
    PushKeeps(s, DoDeref(s, w, true, block, ptr), r, block, Block(w.version, Some(ptr), HeadOf(s.refs[r].chain)),
              Version(w.version, s.refs[r].hist[0].value));
  }

  lemma DerefSafe(s: State, block: Addr, ptr: Addr)
    requires Inv(s) && Ready(s, LFinish(block, ptr)) && s.mutator.op.Deref?
    ensures Defined(s, LFinish(block, ptr)) && Inv(Apply(s, LFinish(block, ptr)))
  {
    hide Inv, CallOk;
    FinishFaults(s, block, ptr);
    var w, write := s.mutator.op.writer, s.mutator.op.write;
    if write && s.blocks[Candidate(s, s.mutator.root, w.version)].ts < w.version {
      DerefPublish(s, w, s.mutator.root, s.mutator.orv, block, ptr);
    } else {
      IdleKeeps(s, DoDeref(s, w, write, block, ptr));
    }
  }

  // ---- release: a tombstone in front

  lemma TombLooks(s: State, w: TM.Tx, r: Addr, orv: nat, block: Addr)
    requires s.mutator == Collected(Release(w), r, orv) && FinishDefined(s, Release(w), r, orv)
    requires block !in s.blocks && DataOk(s)
    requires s.refs[r].chain == [] && s.blocks[r].ts <= orv && s.refs[r].hist[0].ts < w.version
    ensures var s' := DoRelease(s, w, block);
      && PushShape(s, s', r, block, Block(w.version, None, HeadOf(s.refs[r].chain)), Version(w.version, None))
      && s'.garbage == s.garbage + {r} && DataOk(s')
  {
  }

  // ---- release of the writer's own version, and stores: the newest version is replaced

  ghost predicate HeadShape(s: State, s': State, r: Addr, h: Addr, v: Version) {
    && r in s.refs && r in s.blocks && s.refs[r].chain != [] && s.refs[r].chain[0] == h && h != r
    && |s.refs[r].hist| > 1 && s.refs[r].hist[0].ts == v.ts
    && s'.refs == s.refs[r := s.refs[r].(hist := [v] + s.refs[r].hist[1..])]
    && s'.blocks.Keys == s.blocks.Keys && h in s.blocks && s.blocks[h].ts == v.ts
    && s'.blocks[h].ts == v.ts && s'.blocks[h].next == s.blocks[h].next
    && Readable(s', h) && Content(s', h) == v
    && s'.role == s.role
    && (forall a :: a in s.blocks && a != h ==> SameBlock(s, s', a))
    && s'.mgr == s.mgr && s'.committed == s.committed && s'.seen == s.seen
    && s'.walks == s.walks && s'.held == s.held && s'.doomed == s.doomed
    && s.mgr.lastCommitted < v.ts
  }

  lemma HeadVersionAt(s: State, s': State, r: Addr, h: Addr, v: Version, at: nat)
    requires HeadShape(s, s', r, h, v)
    ensures VersionAt(s'.refs[r].hist, at) == if v.ts <= at then v else VersionAt(s.refs[r].hist, at)
  {
    var hist := s.refs[r].hist;
    assert s'.refs[r].hist[1..] == hist[1..];
  }

  lemma HeadStops(s: State, s': State, r: Addr, h: Addr, v: Version, at: nat, i: nat)
    requires HeadShape(s, s', r, h, v) && Decreasing(s, s.refs[r].chain) && r !in s.refs[r].chain
    ensures StopsAt(s, r, at, i) <==> StopsAt(s', r, at, i)
    ensures StopsAt(s, r, at, i) && at < v.ts ==> Source(s, r, i) != h && Source(s', r, i) == Source(s, r, i) && Source(s, r, i) in s.blocks
    ensures StopsAt(s, r, at, i) && v.ts <= at ==> i == 0 && Source(s', r, i) == h
  {
    var chain := s.refs[r].chain;
    assert forall j :: 0 <= j < |chain| ==> chain[j] in s.blocks && s'.blocks[chain[j]].ts == s.blocks[chain[j]].ts;
    if StopsAt(s, r, at, i) && at < v.ts && i < |chain| { ChainDistinct(s, chain, 0, i); }
  }

  lemma HeadFaithful(s: State, s': State, r: Addr, h: Addr, v: Version)
    requires HeadShape(s, s', r, h, v) && Decreasing(s, s.refs[r].chain) && r !in s.refs[r].chain && Faithful(s, r)
    ensures Faithful(s', r)
  {
    hide Decreasing, VersionAt;
    forall at: nat, i: nat | s'.refs[r].floor <= at ensures FaithfulAt(s', r, at, i) {
      if StopsAt(s', r, at, i) {
        HeadStops(s, s', r, h, v, at, i);
        HeadVersionAt(s, s', r, h, v, at);
        assert FaithfulAt(s, r, at, i);
      }
    }
  }

  lemma HeadHist(s: State, s': State, r: Addr, h: Addr, v: Version)
    requires HeadShape(s, s', r, h, v) && HistOk(s, s.refs[r].hist)
    ensures HistOk(s', s'.refs[r].hist)
  {
    var hist, hist' := s.refs[r].hist, s'.refs[r].hist;
    assert forall j :: 0 <= j < |hist'| ==> hist'[j].ts == hist[j].ts;
    SameWritten(s, s');
    forall j | 0 <= j < |hist'| ensures Written(s', hist'[j].ts) { assert Written(s, hist[j].ts); }
  }

  lemma HeadLinked(s: State, s': State, r: Addr, h: Addr, v: Version)
    requires HeadShape(s, s', r, h, v) && Linked(s, r) && Decreasing(s, s.refs[r].chain)
    ensures Linked(s', r) && Decreasing(s', s'.refs[r].chain)
  {
    var chain := s.refs[r].chain;
    forall i | 0 <= i < |chain| ensures s'.blocks[chain[i]].next == Following(chain, i) && s'.blocks[chain[i]].ts == s.blocks[chain[i]].ts {
      assert s.blocks[chain[i]].next == Following(chain, i);
    }
  }

  lemma HeadTomb(s: State, s': State, r: Addr, h: Addr, v: Version)
    requires HeadShape(s, s', r, h, v) && TombOk(s, r) && Decreasing(s, s.refs[r].chain) && r !in s.refs[r].chain
    requires v.value.None? ==> s.blocks[r].data.Some?
    requires r in s'.garbage ==> v.value.None?
    requires Consolidating(s', r) || !Consolidating(s, r)
    ensures TombOk(s', r)
  {
    var chain := s.refs[r].chain;
    forall i | 1 <= i < |chain| ensures s'.blocks[chain[i]] == s.blocks[chain[i]] { ChainDistinct(s, chain, 0, i); }
  }

  lemma HeadRef(s: State, s': State, r: Addr, h: Addr, v: Version)
    requires HeadShape(s, s', r, h, v) && RefInv(s, r)
    requires v.value.None? ==> s.blocks[r].data.Some?
    requires r in s'.garbage ==> v.value.None?
    requires Consolidating(s', r) || !Consolidating(s, r)
    ensures RefInv(s', r)
  {
    RefChain(s, r);
    hide Faithful, TombOk, Linked, HistOk, Decreasing;
    HeadFaithful(s, s', r, h, v);
    HeadHist(s, s', r, h, v);
    HeadLinked(s, s', r, h, v);
    HeadTomb(s, s', r, h, v);
  }

  lemma HeadGood(s: State, s': State, r: Addr, h: Addr, v: Version, at: nat, c: Addr)
    requires HeadShape(s, s', r, h, v) && Decreasing(s, s.refs[r].chain) && r !in s.refs[r].chain && at < v.ts
    requires Live(s.refs[r].hist, at) && SameZombies(s, s') && Good(s, r, at, c)
    requires VersionAt(s'.refs[r].hist, at) == VersionAt(s.refs[r].hist, at)
    ensures Good(s', r, at, c) && c in s.blocks && c in s'.blocks && s'.blocks[c].data == s.blocks[c].data
  {
    hide Decreasing, VersionAt, SameZombies;
    if i: nat :| StopsAt(s, r, at, i) && c == Source(s, r, i) {
      HeadStops(s, s', r, h, v, at, i);
    } else {
      ParkedSameHist(s, s', r, at, c);
    }
  }

  lemma HeadCursor(s: State, s': State, r: Addr, h: Addr, v: Version, at: nat, c: Cursor)
    requires HeadShape(s, s', r, h, v) && Decreasing(s, s.refs[r].chain) && r !in s.refs[r].chain && at < v.ts
    requires Live(s.refs[r].hist, at) && SameZombies(s, s') && CursorOk(s, r, at, c)
    requires VersionAt(s'.refs[r].hist, at) == VersionAt(s.refs[r].hist, at)
    ensures CursorOk(s', r, at, c)
  {
    hide VersionAt, SameZombies, Parked;
    assert forall i :: Passed(s, r, at, i) ==> Passed(s', r, at, i);
    match c {
      case At(None) =>
      case At(Some(x)) => if Parked(s, r, at, x) { ParkedSameHist(s, s', r, at, x); }
      case TooNew(x) =>
      case Chosen(x) => HeadGood(s, s', r, h, v, at, x);
    }
  }

  lemma HeadReaders(s: State, s': State, r: Addr, h: Addr, v: Version)
    requires TM.Inv(s.mgr) && HeadShape(s, s', r, h, v) && Decreasing(s, s.refs[r].chain) && r !in s.refs[r].chain
    requires SameZombies(s, s')
    ensures ReadersOfKept(s, s', r)
  {
    HeadFacts(s, s', r, h, v);
    hide TM.Inv, SameZombies, HeadShape, Decreasing;
    forall t | LiveFor(s, t, r)
      ensures LiveFor(s', t, r)
      ensures forall c :: CursorOk(s, r, t.version, c) ==> CursorOk(s', r, t.version, c)
      ensures forall c :: Good(s, r, t.version, c) && c in s.blocks ==>
                Good(s', r, t.version, c) && c in s'.blocks && s'.blocks[c].data == s.blocks[c].data
    {
      ZeroBound(s);
      ReaderBound(s, t, 0);
      HeadVersionAt(s, s', r, h, v, t.version);
      forall c | Good(s, r, t.version, c)
        ensures Good(s', r, t.version, c) && c in s.blocks && c in s'.blocks && s'.blocks[c].data == s.blocks[c].data
      {
        HeadGood(s, s', r, h, v, t.version, c);
      }
      forall c | CursorOk(s, r, t.version, c) ensures CursorOk(s', r, t.version, c) {
        HeadCursor(s, s', r, h, v, t.version, c);
      }
    }
  }

  lemma HeadFacts(s: State, s': State, r: Addr, h: Addr, v: Version)
    requires HeadShape(s, s', r, h, v)
    ensures r in s.refs && r in s'.refs && s'.mgr == s.mgr && |s'.refs[r].hist| > 0 && |s.refs[r].hist| > 0
    ensures s.mgr.lastCommitted < v.ts && s'.refs.Keys == s.refs.Keys
  {
  }

  lemma HeadPool(s: State, s': State, r: Addr, h: Addr, v: Version)
    requires HeadShape(s, s', r, h, v) && PoolOk(s) && r in s.role && s.role[r] == RootOf
    requires s'.garbage == s.garbage || s'.garbage == s.garbage + {r}
    ensures PoolOk(s')
  {
    forall c | c in s'.role ensures RoleOk(s', c) { assert RoleOk(s, c); }
  }

  lemma HeadElsewhere(s: State, s': State, r: Addr, h: Addr, v: Version)
    requires HeadShape(s, s', r, h, v) && h in s.role && s.role[h] == ChainOf(r)
    requires forall q :: q != r && Consolidating(s, q) ==> Consolidating(s', q)
    requires s'.garbage == s.garbage || s'.garbage == s.garbage + {r}
    ensures SameElsewhere(s, s', r) && SameZombies(s, s')
  {
  }

  lemma HeadKeeps(s: State, s': State, r: Addr, h: Addr, v: Version)
    requires TM.Inv(s.mgr) && SeenOk(s) && RefsOk(s) && ReadersOk(s) && PoolOk(s)
    requires HeadShape(s, s', r, h, v) && RefInv(s, r) && r in s.role && s.role[r] == RootOf
    requires v.value.None? ==> s.blocks[r].data.Some?
    requires s.refs[r].hist[0].value.Some?
    requires s'.garbage == s.garbage || (s'.garbage == s.garbage + {r} && v.value.None?)
    requires forall q :: Consolidating(s, q) ==> q != r && Consolidating(s', q)
    ensures TM.Inv(s'.mgr) && SeenOk(s') && RefsOk(s') && ReadersOk(s') && PoolOk(s')
  {
    HeadFacts(s, s', r, h, v);
    hide TM.Inv, SeenOk, RefsOk, ReadersOk, PoolOk, HeadShape, ReadersOfKept, RefOk, Faithful, TombOk, SameElsewhere, SameZombies, Decreasing;
    NotGarbage(s, r);
    RefChain(s, r);
    HeadRole(s, s', r, h, v);
    HeadRef(s, s', r, h, v);
    HeadPool(s, s', r, h, v);
    HeadElsewhere(s, s', r, h, v);
    HeadReaders(s, s', r, h, v);
    LocalStep(s, s', r);
  }

  lemma HeadRole(s: State, s': State, r: Addr, h: Addr, v: Version)
    requires HeadShape(s, s', r, h, v) && RefOk(s, r)
    ensures h in s.role && s.role[h] == ChainOf(r)
  {
  }

  lemma KillLooks(s: State, w: TM.Tx, r: Addr, orv: nat, block: Addr)
    requires s.mutator == Collected(Release(w), r, orv) && FinishDefined(s, Release(w), r, orv)
    requires DataOk(s) && s.mgr.lastCommitted < w.version && r !in s.refs[r].chain && r in s.blocks
    requires s.refs[r].chain != [] && s.blocks[s.refs[r].chain[0]].ts > orv && |s.refs[r].hist| > 1
    requires Content(s, s.refs[r].chain[0]) == s.refs[r].hist[0]
    ensures var s' := DoRelease(s, w, block);
      && HeadShape(s, s', r, s.refs[r].chain[0], Version(w.version, None))
      && s'.garbage == s.garbage + {r} && DataOk(s') && s'.mutator.Idle?
  {
    assert s.refs[r].chain[0] in s.refs[r].chain;
  }

  /** A version of a running writer is not the allocation's. */
  lemma LongHist(s: State, r: Addr, w: TM.Tx)
    requires r in s.refs && RefOk(s, r) && s.mgr.lastCommitted < s.refs[r].hist[0].ts
    ensures |s.refs[r].hist| > 1
  {
  }

  /** A release never takes the branch that would drop a version: when the newest version is
      at most `orv`, it is the root's and the chain is empty. */
  lemma ReleaseDropsNothing(s: State)
    requires Inv(s) && s.mutator.Collected? && s.mutator.root in s.refs
    requires var c := Source(s, s.mutator.root, 0); c in s.blocks && s.blocks[c].ts <= s.mutator.orv
    ensures s.refs[s.mutator.root].chain == []
  {
    hide RefsOk, PoolOk, DataOk, DoomedOk, ReadersOk, TM.Inv, SeenOk;
  }

  lemma ReleaseKill(s: State, w: TM.Tx, r: Addr, orv: nat, block: Addr)
    requires s.mutator == Collected(Release(w), r, orv) && FinishDefined(s, Release(w), r, orv)
    requires s.blocks[Source(s, r, 0)].ts > orv
    requires Inv(s)
    ensures Inv(DoRelease(s, w, block))
  {
    hide RefsOk, PoolOk, DataOk, DoomedOk, ReadersOk, TM.Inv, SeenOk, MutatorOk, RefOk, Faithful, TombOk, HeadShape, DoRelease, Candidate, Written;
    var _, _ := CallFacts(s);
    var h := Source(s, r, 0);
    LongHist(s, r, w);
    RefChain(s, r);
    KillLooks(s, w, r, orv, block);
    var s' := DoRelease(s, w, block);
    HeadKeeps(s, s', r, h, Version(w.version, None));
    HeadRest(s, s', r, h, Version(w.version, None));
  }

  lemma HeadRest(s: State, s': State, r: Addr, h: Addr, v: Version)
    requires HeadShape(s, s', r, h, v) && DoomedOk(s) && !s.mutator.Freeing? && s'.mutator.Idle?
    ensures DoomedOk(s') && MutatorOk(s')
  {
  }

  lemma ReleaseTomb(s: State, w: TM.Tx, r: Addr, orv: nat, block: Addr)
    requires s.mutator == Collected(Release(w), r, orv) && FinishDefined(s, Release(w), r, orv) && block !in s.blocks
    requires s.blocks[Source(s, r, 0)].ts <= orv
    requires Inv(s)
    ensures Inv(DoRelease(s, w, block))
  {
    hide RefsOk, PoolOk, DataOk, DoomedOk, ReadersOk, TM.Inv, SeenOk, MutatorOk, RefOk, Faithful, TombOk, PushShape, DoRelease, Candidate, Written;
    var _, _ := CallFacts(s);
    TombLooks(s, w, r, orv, block);
    PushKeeps(s, DoRelease(s, w, block), r, block, Block(w.version, None, HeadOf(s.refs[r].chain)), Version(w.version, None));
  }

  lemma ReleaseSafe(s: State, block: Addr, ptr: Addr)
    requires Inv(s) && Ready(s, LFinish(block, ptr)) && s.mutator.op.Release? && ReleaseAllowed(s, LFinish(block, ptr))
    ensures Defined(s, LFinish(block, ptr)) && Inv(Apply(s, LFinish(block, ptr)))
  {
    hide Inv, CallOk;
    FinishFaults(s, block, ptr);
    var w, r, orv := s.mutator.op.writer, s.mutator.root, s.mutator.orv;
    if s.blocks[Source(s, r, 0)].ts <= orv {
      ReleaseTomb(s, w, r, orv, block);
    } else {
      ReleaseKill(s, w, r, orv, block);
    }
  }

  // ---- stores through a write pointer

  lemma StoreLooks(s: State, w: TM.Tx, r: Addr, bytes: Bytes)
    requires r in s.refs && r in s.blocks && |s.refs[r].hist| > 1 && s.refs[r].chain != [] && r !in s.refs[r].chain
    requires Readable(s, s.refs[r].chain[0]) && s.blocks[s.refs[r].chain[0]].data.Some?
    requires DataOk(s) && s.mgr.lastCommitted < w.version && s.blocks[s.refs[r].chain[0]].ts == w.version
    requires s.refs[r].hist[0].ts == w.version
    ensures var s' := DoStore(s, r, bytes);
      && HeadShape(s, s', r, s.refs[r].chain[0], Version(w.version, Some(bytes))) && DataOk(s')
      && s'.garbage == s.garbage && s'.mutator == s.mutator
  {
    assert s.refs[r].chain[0] in s.refs[r].chain;
  }

  lemma StoreMutator(s: State, s': State, r: Addr, h: Addr, v: Version)
    requires HeadShape(s, s', r, h, v) && MutatorOk(s) && s'.mutator == s.mutator && s'.garbage == s.garbage && !WriterBusy(s)
    requires s'.blocks == s.blocks && h !in s.refs
    ensures MutatorOk(s') && forall q :: Consolidating(s, q) ==> q != r
  {
    if !s.mutator.Idle? {
      var q := s.mutator.root;
      assert ChainAt(s', q) == ChainAt(s, q);
      if Consolidating(s, q) {
        var y := s.refs[q].chain[0];
        assert SameBlock(s, s', q) && SameBlock(s, s', y);
      }
    }
  }

  lemma StoreDoomed(s: State, s': State, r: Addr, h: Addr, v: Version)
    requires HeadShape(s, s', r, h, v) && DoomedOk(s) && s'.mutator == s.mutator && s'.blocks == s.blocks
    ensures DoomedOk(s')
  {
  }

  /** The writer's pointer is to the newest version, which is its own. */
  lemma StoreFacts(s: State, w: TM.Tx, r: Addr, bytes: Bytes)
    requires Inv(s) && Ready(s, LStore(w, r, bytes))
    ensures RefInv(s, r) && r in s.role && s.role[r] == RootOf && r in s.blocks && r !in s.refs[r].chain
    ensures s.refs[r].chain != [] && s.refs[r].hist[0].ts == w.version == w.id > s.mgr.lastCommitted && |s.refs[r].hist| > 1
    ensures Readable(s, s.refs[r].chain[0]) && s.blocks[s.refs[r].chain[0]].data.Some?
  {
    hide RefsOk, PoolOk, DataOk, DoomedOk, ReadersOk, TM.Inv, SeenOk, MutatorOk, Faithful, TombOk, HistOk, Linked;
    RefInvOf(s, r);
    WriterFacts(s, w);
    NewestValue(s, r);
    LongHist(s, r, w);
    RefChain(s, r);
  }

  lemma StoreSafe(s: State, w: TM.Tx, r: Addr, bytes: Bytes)
    requires Inv(s) && Ready(s, LStore(w, r, bytes))
    ensures Defined(s, LStore(w, r, bytes)) && Inv(Apply(s, LStore(w, r, bytes)))
  {
    hide RefsOk, PoolOk, DataOk, DoomedOk, ReadersOk, TM.Inv, SeenOk, MutatorOk, RefOk, Faithful, TombOk, HeadShape;
    StoreFacts(s, w, r, bytes);
    var h, s', v := s.refs[r].chain[0], DoStore(s, r, bytes), Version(w.version, Some(bytes));
    StoreLooks(s, w, r, bytes);
    HeadRole(s, s', r, h, v);
    NotARef(s, h);
    StoreMutator(s, s', r, h, v);
    HeadKeeps(s, s', r, h, v);
    StoreDoomed(s, s', r, h, v);
  }

  // ---- allocation

  lemma AllocRef(s: State, w: TM.Tx, r: Addr, b: Addr, p: Addr, bytes: Bytes)
    requires TM.Inv(s.mgr) && WriterTx(s, w) && r != b && r !in s.garbage && s.mutator.Idle?
    ensures RefInv(DoAlloc(s, w, r, b, p, bytes), r)
  {
    var s' := DoAlloc(s, w, r, b, p, bytes);
    WriterWritten(s, w);
    SameWritten(s, s');
    hide TM.Inv;
    ZeroBound(s);
    assert s'.refs[r].chain[0] == b;
    AllocFaithful(s, w, r, b, p, bytes);
  }

  lemma AllocFaithful(s: State, w: TM.Tx, r: Addr, b: Addr, p: Addr, bytes: Bytes)
    requires r != b
    ensures Faithful(DoAlloc(s, w, r, b, p, bytes), r)
  {
    var s' := DoAlloc(s, w, r, b, p, bytes);
    var hist := s'.refs[r].hist;
    assert hist[1..] == [Version(0, None)];
    forall v: nat, i: nat | 0 <= v ensures FaithfulAt(s', r, v, i) {
      assert s'.refs[r].chain[0] == b;
      assert VersionAt(hist, v) == if w.version <= v then hist[0] else hist[1];
    }
  }

  lemma AllocPool(s: State, w: TM.Tx, r: Addr, b: Addr, p: Addr, bytes: Bytes)
    requires PoolOk(s) && r != b && r !in s.blocks && b !in s.blocks && r !in s.refs
    ensures PoolOk(DoAlloc(s, w, r, b, p, bytes))
  {
    var s' := DoAlloc(s, w, r, b, p, bytes);
    forall c | c in s'.role ensures RoleOk(s', c) {
      if c != r && c != b { assert RoleOk(s, c); } else { assert b in s'.refs[r].chain; }
    }
  }

  lemma AllocData(s: State, w: TM.Tx, r: Addr, b: Addr, p: Addr, bytes: Bytes)
    requires DataOk(s) && r != b && r !in s.blocks && b !in s.blocks && p !in s.data
    ensures DataOk(DoAlloc(s, w, r, b, p, bytes))
  {
  }

  lemma AllocViews(s: State, w: TM.Tx, r: Addr, b: Addr, p: Addr, bytes: Bytes)
    requires s.role.Keys == s.blocks.Keys && r != b && r !in s.blocks && b !in s.blocks && p !in s.data && r !in s.refs
    ensures forall a :: a in s.blocks ==> SameBlock(s, DoAlloc(s, w, r, b, p, bytes), a)
    ensures SameZombies(s, DoAlloc(s, w, r, b, p, bytes))
    ensures forall q :: q in s.refs && RefOk(s, q) ==> SameView(s, DoAlloc(s, w, r, b, p, bytes), q)
  {
    hide HistOk, Decreasing, HeadOf, Following;
  }

  lemma AllocRefs(s: State, w: TM.Tx, r: Addr, b: Addr, p: Addr, bytes: Bytes)
    requires RefsOk(s) && s.mutator.Idle?
    requires var s' := DoAlloc(s, w, r, b, p, bytes); RefInv(s', r) && r !in s.refs
    requires forall q :: q in s.refs ==> SameView(s, DoAlloc(s, w, r, b, p, bytes), q)
    ensures RefsOk(DoAlloc(s, w, r, b, p, bytes))
  {
    hide RefOk, Faithful, TombOk, SameView;
    var s' := DoAlloc(s, w, r, b, p, bytes);
    SameWritten(s, s');
    forall q | q in s'.refs ensures RefOk(s', q) && Faithful(s', q) && TombOk(s', q) {
      if q != r {
        RefInvOf(s, q);
        RefFloor(s, q);
        KeepRef(s, s', q);
      }
    }
  }

  lemma NewRoot(s: State, r: Addr)
    requires PoolOk(s) && RefsOk(s) && r !in s.blocks
    ensures r !in s.garbage && r !in s.refs && s.role.Keys == s.blocks.Keys
    ensures forall q :: q in s.refs ==> RefOk(s, q)
  {
    hide RefOk, Faithful, TombOk;
    if r in s.refs { RefInvOf(s, r); RefChain(s, r); }
  }

  lemma AllocSafe(s: State, w: TM.Tx, r: Addr, b: Addr, p: Addr, bytes: Bytes)
    requires Inv(s) && Ready(s, LAlloc(w, r, b, p, bytes))
    ensures Defined(s, LAlloc(w, r, b, p, bytes)) && Inv(Apply(s, LAlloc(w, r, b, p, bytes)))
  {
    hide RefsOk, PoolOk, DataOk, DoomedOk, ReadersOk, TM.Inv, SeenOk, RefOk, Faithful, TombOk, SameView, SameZombies;
    var s' := DoAlloc(s, w, r, b, p, bytes);
    NewRoot(s, r);
    AllocRef(s, w, r, b, p, bytes);
    AllocPool(s, w, r, b, p, bytes);
    AllocData(s, w, r, b, p, bytes);
    AllocViews(s, w, r, b, p, bytes);
    AllocRefs(s, w, r, b, p, bytes);
    ReadersRun(s);
    KeepReaders(s, s');
    AllocRest(s, s');
  }

  lemma AllocRest(s: State, s': State)
    requires s.mutator.Idle? && s'.mutator == s.mutator && s'.doomed == s.doomed && DoomedOk(s) && SeenOk(s)
    requires s'.mgr == s.mgr && s'.committed == s.committed && s'.seen == s.seen
    ensures DoomedOk(s') && SeenOk(s')
  {
    assert forall t :: ReaderTx(s', t) <==> ReaderTx(s, t);
  }
}
