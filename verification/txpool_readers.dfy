/** Transactions beginning and committing, and the steps of a reader's walk. */
module TxPoolReaders {
  import opened Options
  import TM = TxManager
  import opened TxPoolState
  import opened TxPoolSteps
  import opened TxPoolInvariant
  import opened TxPoolFrame

  lemma WriterRuns(s: State)
    requires MutatorOk(s)
    ensures WriterBusy(s) ==> WriterTx(s, s.mutator.op.writer)
  {
  }

  // ---- begin and commit

  lemma BeginMonotone(s: State, kind: TM.Kind)
    requires Inv(s) && TM.CanBegin(s.mgr, kind)
    ensures var s' := DoBegin(s, kind);
      && TM.Inv(s'.mgr) && WrittenGrows(s, s')
      && (forall b :: TM.SafeBound(s.mgr, b) ==> TM.SafeBound(s'.mgr, b))
      && (forall t :: t in s.mgr.running ==> t in s'.mgr.running && t != TM.NewTx(s.mgr, kind))
      && (forall t :: t in s'.mgr.running ==> t in s.mgr.running || t == TM.NewTx(s.mgr, kind))
  {
    var s' := DoBegin(s, kind);
    TM.BeginKeepsInv(s.mgr, kind);
    forall b | TM.SafeBound(s.mgr, b) ensures TM.SafeBound(s'.mgr, b) { TM.BeginKeepsBound(s.mgr, kind, b); }
    forall t | t in s.mgr.running ensures t in s'.mgr.running && t != TM.NewTx(s.mgr, kind) {
      var i :| 0 <= i < |s.mgr.running| && s.mgr.running[i] == t;
      assert s'.mgr.running[i] == t && TM.TxOk(s.mgr, s.mgr.running[i]);
    }
  }

  lemma BeginSafe(s: State, kind: TM.Kind)
    requires Inv(s) && Ready(s, LBegin(kind))
    ensures Inv(DoBegin(s, kind))
  {
    hide RefsOk, PoolOk, DataOk, DoomedOk, MutatorOk, ReadersOk, TM.Inv;
    var s' := DoBegin(s, kind);
    BeginMonotone(s, kind);
    ReadersRun(s);
    WriterRuns(s);
    KeepPool(s, s');
    KeepMemory(s, s');
    KeepMutator(s, s');
    KeepReaders(s, s');
  }

  lemma CommitMonotone(s: State, i: nat)
    requires Inv(s) && i < |s.mgr.running|
    ensures var s' := DoCommit(s, i);
      && TM.Inv(s'.mgr) && WrittenGrows(s, s')
      && (forall b :: TM.SafeBound(s.mgr, b) ==> TM.SafeBound(s'.mgr, b))
      && (forall t :: t in s.mgr.running && t != s.mgr.running[i] ==> t in s'.mgr.running)
      && (forall t :: t in s'.mgr.running ==> t in s.mgr.running)
  {
    var s' := DoCommit(s, i);
    TM.CommitKeepsInv(s.mgr, i);
    forall b | TM.SafeBound(s.mgr, b) ensures TM.SafeBound(s'.mgr, b) { TM.CommitKeepsBound(s.mgr, i, b); }
    forall t | t in s.mgr.running && t != s.mgr.running[i] ensures t in s'.mgr.running {
      var k :| 0 <= k < |s.mgr.running| && s.mgr.running[k] == t;
      assert s'.mgr.running[if k < i then k else k - 1] == t;
    }
    forall ts | Written(s, ts) ensures Written(s', ts) {
      if ts != 0 && ts !in s.committed {
        var w :| w in s.mgr.running && w.kind.ReadWrite? && w.id == ts;
        assert w == s.mgr.running[i] || w in s'.mgr.running;
      }
    }
  }

  lemma CommitSeen(s: State, i: nat)
    requires Inv(s) && i < |s.mgr.running|
    ensures SeenOk(DoCommit(s, i))
  {
    var s' := DoCommit(s, i);
    CommitMonotone(s, i);
    var tx := s.mgr.running[i];
    assert TM.TxOk(s.mgr, tx);
    forall t | ReaderTx(s', t)
      ensures t in s'.seen && s'.seen[t] <= s'.committed
              && forall w :: w in s'.committed ==> (w in s'.seen[t] <==> w <= t.version)
    {
      assert ReaderTx(s, t);
      var k :| 0 <= k < |s.mgr.running| && s.mgr.running[k] == t;
      assert TM.TxOk(s.mgr, s.mgr.running[k]);
    }
  }

  lemma CommitSafe(s: State, i: nat)
    requires Inv(s) && Ready(s, LCommit(i))
    ensures Inv(DoCommit(s, i))
  {
    hide RefsOk, PoolOk, DataOk, DoomedOk, MutatorOk, ReadersOk, TM.Inv;
    var s' := DoCommit(s, i);
    CommitMonotone(s, i);
    CommitSeen(s, i);
    KeepPool(s, s');
    KeepMemory(s, s');
    WriterStays(s, i);
    KeepMutator(s, s');
    ReadersRun(s);
    KeepReaders(s, s');
  }

  /** A writer inside a call is not the transaction that commits. */
  lemma WriterStays(s: State, i: nat)
    requires Inv(s) && Ready(s, LCommit(i))
    ensures WriterBusy(s) ==> WriterTx(DoCommit(s, i), s.mutator.op.writer)
  {
    hide RefsOk, PoolOk, DataOk, DoomedOk, MutatorOk, ReadersOk, TM.Inv;
    WriterRuns(s);
    CommitMonotone(s, i);
  }

  // ---- facts about versions

  lemma {:induction false} VersionAtBound(hist: seq<Version>, v: nat)
    requires |hist| > 0 && hist[|hist| - 1].ts == 0
    ensures VersionAt(hist, v).ts <= v && VersionAt(hist, v) in hist
  {
    if hist[0].ts > v && |hist| > 1 {
      VersionAtBound(hist[1..], v);
      assert hist[1..][|hist| - 2] == hist[|hist| - 1];
    }
  }

  lemma ReaderBound(s: State, t: TM.Tx, b: nat)
    requires TM.Inv(s.mgr) && ReaderTx(s, t) && TM.SafeBound(s.mgr, b)
    ensures b <= t.version <= s.mgr.lastCommitted
  {
    var i :| 0 <= i < |s.mgr.running| && s.mgr.running[i] == t;
    assert TM.TxOk(s.mgr, s.mgr.running[i]);
  }

  /** A block good for a live reader can be read and holds exactly its snapshot version. */
  lemma GoodContent(s: State, t: TM.Tx, r: Addr, c: Addr)
    requires Inv(s) && LiveFor(s, t, r) && Good(s, r, t.version, c)
    ensures Readable(s, c) && Content(s, c) == VersionAt(s.refs[r].hist, t.version)
    ensures s.blocks[c].ts <= t.version && s.blocks[c].data.Some?
  {
    assert RefOk(s, r) && Faithful(s, r);
    ReaderBound(s, t, s.refs[r].floor);
    VersionAtBound(s.refs[r].hist, t.version);
    if i: nat :| StopsAt(s, r, t.version, i) && c == Source(s, r, i) {
      assert FaithfulAt(s, r, t.version, i);
    }
  }

  // ---- the walk

  /** Only walks and handed-out pointers differ. */
  ghost predicate OnlyReaders(s: State, s': State) {
    SameMemory(s, s') && s'.mgr == s.mgr && s'.committed == s.committed && s'.seen == s.seen
  }

  lemma KeepRest(s: State, s': State)
    requires Inv(s) && OnlyReaders(s, s')
    ensures TM.Inv(s'.mgr) && SeenOk(s') && PoolOk(s') && DataOk(s') && DoomedOk(s') && RefsOk(s') && MutatorOk(s')
    ensures SameZombies(s, s') && forall r :: r in s.refs ==> SameView(s, s', r)
  {
    assert forall t :: ReaderTx(s', t) ==> ReaderTx(s, t);
    assert forall ts :: Written(s, ts) ==> Written(s', ts);
    KeepPool(s, s');
    KeepMemory(s, s');
    KeepMutator(s, s');
  }

  lemma WalkStepSafe(s: State, s': State, t: TM.Tx)
    requires Inv(s) && OnlyReaders(s, s') && s'.held == s.held
    requires t in s'.walks && (forall u :: u in s'.walks && u != t ==> u in s.walks && s'.walks[u] == s.walks[u])
    requires LiveFor(s, t, s'.walks[t].root) && CursorOk(s, s'.walks[t].root, t.version, s'.walks[t].cursor)
    ensures Inv(s')
  {
    hide RefsOk, PoolOk, DataOk, DoomedOk, MutatorOk, ReadersOk, TM.Inv, CursorOk, SeenOk, SameView, SameZombies;
    var q := OtherWalks(s, s', t);
    KeepRest(s, s');
    KeepCursor(s, s', s'.walks[t].root, t.version, s'.walks[t].cursor);
    NewWalkOk(s, s', t);
    KeepRest(q, s');
    ReadersSplit(q, s', t);
  }

  lemma NewWalkOk(s: State, s': State, t: TM.Tx)
    requires OnlyReaders(s, s') && t in s'.walks && LiveFor(s, t, s'.walks[t].root)
    requires CursorOk(s', s'.walks[t].root, t.version, s'.walks[t].cursor)
    ensures WalkOk(s', t)
  {
    hide CursorOk;
  }

  /** The state without the walk of `t`. */
  lemma OtherWalks(s: State, s': State, t: TM.Tx) returns (q: State)
    requires Inv(s) && OnlyReaders(s, s') && s'.held == s.held
    requires forall u :: u in s'.walks && u != t ==> u in s.walks && s'.walks[u] == s.walks[u]
    ensures Inv(q) && OnlyReaders(q, s') && OnlyReaders(s, q) && q.held == s'.held
    ensures q.walks == map u | u in s'.walks && u != t :: s'.walks[u]
  {
    hide RefsOk, PoolOk, DataOk, DoomedOk, MutatorOk, ReadersOk, TM.Inv, CursorOk, SeenOk, SameView, SameZombies;
    q := s'.(walks := map u | u in s'.walks && u != t :: s'.walks[u]);
    ReadersRun(s);
    KeepRest(s, q);
    KeepReaders(s, q);
  }

  lemma ReadersSplit(q: State, s': State, t: TM.Tx)
    requires ReadersOk(q) && OnlyReaders(q, s') && s'.held == q.held && t in s'.walks && WalkOk(s', t)
    requires forall u :: u in s'.walks && u != t ==> u in q.walks && s'.walks[u] == q.walks[u]
    requires SameZombies(q, s') && forall r :: r in q.refs ==> SameView(q, s', r)
    ensures ReadersOk(s')
  {
    forall u | u in s'.walks ensures WalkOk(s', u) {
      if u != t {
        assert WalkOk(q, u);
        KeepCursor(q, s', q.walks[u].root, u.version, q.walks[u].cursor);
      }
    }
    forall h | h in s'.held ensures HeldOk(s', h) {
      assert HeldOk(q, h);
      KeepGood(q, s', h.root, h.tx.version, h.block);
    }
  }

  lemma WalkFacts(s: State, t: TM.Tx)
    requires Inv(s) && t in s.walks
    ensures LiveFor(s, t, s.walks[t].root) && CursorOk(s, s.walks[t].root, t.version, s.walks[t].cursor)
    ensures RefOk(s, s.walks[t].root)
  {
    assert WalkOk(s, t);
  }

  lemma RefFacts(s: State, r: Addr)
    requires Inv(s) && r in s.refs
    ensures RefOk(s, r) && Faithful(s, r) && TombOk(s, r)
  {
  }

  lemma ChosenGood(s: State, r: Addr, v: nat, c: Addr)
    requires r in s.refs && |s.refs[r].hist| > 0 && CursorOk(s, r, v, Chosen(c))
    ensures Good(s, r, v, c)
  {
  }

  lemma StartCursor(s: State, r: Addr, v: nat)
    requires r in s.refs && RefOk(s, r)
    ensures r in s.blocks && CursorOk(s, r, v, At(s.blocks[r].next))
  {
    var chain := s.refs[r].chain;
    if chain != [] { assert chain[0] == s.blocks[r].next.value && Passed(s, r, v, -1); }
  }

  lemma TestNull(s: State, r: Addr, v: nat)
    requires r in s.refs && |s.refs[r].hist| > 0 && CursorOk(s, r, v, At(None))
    ensures CursorOk(s, r, v, Chosen(r))
  {
    assert StopsAt(s, r, v, |s.refs[r].chain|) && Source(s, r, |s.refs[r].chain|) == r;
  }

  lemma TestBlock(s: State, r: Addr, v: nat, a: Addr)
    requires r in s.refs && |s.refs[r].hist| > 0 && Decreasing(s, s.refs[r].chain) && CursorOk(s, r, v, At(Some(a)))
    ensures a in s.blocks && CursorOk(s, r, v, if s.blocks[a].ts > v then TooNew(a) else Chosen(a))
  {
    var chain := s.refs[r].chain;
    if i :| 0 <= i < |chain| && chain[i] == a && Passed(s, r, v, i - 1) {
      if s.blocks[a].ts > v {
        assert Passed(s, r, v, i);
      } else {
        assert StopsAt(s, r, v, i) && Source(s, r, i) == a;
      }
    }
  }

  lemma TestCursor(s: State, r: Addr, v: nat, p: Option<Addr>)
    requires r in s.refs && RefOk(s, r) && CursorOk(s, r, v, At(p))
    ensures p.None? ==> CursorOk(s, r, v, Chosen(r))
    ensures p.Some? ==>
      && p.value in s.blocks
      && CursorOk(s, r, v, if s.blocks[p.value].ts > v then TooNew(p.value) else Chosen(p.value))
  {
    hide CursorOk, Linked, Decreasing;
    if p.None? { TestNull(s, r, v); } else { TestBlock(s, r, v, p.value); }
  }

  lemma FollowCursor(s: State, r: Addr, v: nat, a: Addr)
    requires r in s.refs && RefOk(s, r) && CursorOk(s, r, v, TooNew(a))
    ensures a in s.blocks && CursorOk(s, r, v, At(s.blocks[a].next))
  {
    var chain := s.refs[r].chain;
    var i :| 0 <= i < |chain| && chain[i] == a && Passed(s, r, v, i);
    assert s.blocks[a].next == Following(chain, i);
    if i + 1 < |chain| {
      assert chain[i + 1] == s.blocks[a].next.value && Passed(s, r, v, (i + 1) - 1);
    }
  }

  lemma WalkSafe(s: State, t: TM.Tx, root: Addr)
    requires Inv(s) && Ready(s, LWalk(t, root))
    ensures Defined(s, LWalk(t, root)) && Inv(Apply(s, LWalk(t, root)))
  {
    hide Inv, RefOk, Faithful, TombOk, CursorOk;
    RefFacts(s, root);
    StartCursor(s, root, t.version);
    WalkStepSafe(s, Apply(s, LWalk(t, root)), t);
  }

  lemma TestSafe(s: State, t: TM.Tx)
    requires Inv(s) && Ready(s, LTest(t))
    ensures Defined(s, LTest(t)) && Inv(Apply(s, LTest(t)))
  {
    hide Inv, RefOk, CursorOk;
    WalkFacts(s, t);
    TestCursor(s, s.walks[t].root, t.version, s.walks[t].cursor.p);
    WalkStepSafe(s, Apply(s, LTest(t)), t);
  }

  lemma FollowSafe(s: State, t: TM.Tx)
    requires Inv(s) && Ready(s, LFollow(t))
    ensures Defined(s, LFollow(t)) && Inv(Apply(s, LFollow(t)))
  {
    hide Inv, RefOk, CursorOk;
    WalkFacts(s, t);
    FollowCursor(s, s.walks[t].root, t.version, s.walks[t].cursor.a);
    WalkStepSafe(s, Apply(s, LFollow(t)), t);
  }

  ghost predicate LoadsSnapshot(s: State, t: TM.Tx) {
    && t in s.walks && s.walks[t].cursor.Chosen?
    && var k := s.walks[t];
       && LiveFor(s, t, k.root) && Good(s, k.root, t.version, k.cursor.c)
       && Readable(s, k.cursor.c) && Content(s, k.cursor.c) == VersionAt(s.refs[k.root].hist, t.version)
  }

  /** The load a walk ends with is never of a dead block, never trips the code's assertion,
      and yields the version the reader's snapshot shows. */
  lemma LoadDefined(s: State, t: TM.Tx)
    requires Inv(s) && Ready(s, LLoad(t))
    ensures Defined(s, LLoad(t)) && LoadsSnapshot(s, t)
  {
    hide Inv, RefOk, Good, CursorOk;
    WalkFacts(s, t);
    ChosenGood(s, s.walks[t].root, t.version, s.walks[t].cursor.c);
    GoodContent(s, t, s.walks[t].root, s.walks[t].cursor.c);
  }

  lemma LoadSafe(s: State, t: TM.Tx)
    requires Inv(s) && Ready(s, LLoad(t))
    ensures Defined(s, LLoad(t)) && Inv(Apply(s, LLoad(t)))
  {
    hide RefsOk, PoolOk, DataOk, DoomedOk, MutatorOk, ReadersOk, TM.Inv, CursorOk, SeenOk, SameView, SameZombies, Good, OnlyReaders, Ready, Defined, Apply;
    LoadDefined(s, t);
    var s' := Apply(s, LLoad(t));
    LoadApplied(s, t);
    KeepRest(s, s');
    LoadReaders(s, s', t);
  }

  lemma LoadApplied(s: State, t: TM.Tx)
    requires Ready(s, LLoad(t)) && Defined(s, LLoad(t))
    ensures var s', k := Apply(s, LLoad(t)), s.walks[t];
            && OnlyReaders(s, s') && s'.walks == s.walks - {t} && k.cursor.Chosen?
            && k.cursor.c in s.blocks && s.blocks[k.cursor.c].data.Some?
            && s'.held == s.held + {Held(t, k.root, k.cursor.c, s.blocks[k.cursor.c].data.value)}
  {
  }

  /** The pointer that was read joins the pointers handed out, and the walk is over. */
  lemma LoadReaders(s: State, s': State, t: TM.Tx)
    requires Inv(s) && LoadsSnapshot(s, t) && OnlyReaders(s, s') && s'.walks == s.walks - {t}
    requires s.walks[t].cursor.c in s.blocks && s.blocks[s.walks[t].cursor.c].data.Some?
    requires s'.held == s.held + {Held(t, s.walks[t].root, s.walks[t].cursor.c, s.blocks[s.walks[t].cursor.c].data.value)}
    ensures ReadersOk(s')
  {
    hide RefsOk, PoolOk, DataOk, DoomedOk, MutatorOk, ReadersOk, TM.Inv, CursorOk, SeenOk, SameView, SameZombies, Good;
    var r, c := s.walks[t].root, s.walks[t].cursor.c;
    var q := s'.(held := s.held);
    ReadersRun(s);
    KeepRest(s, q);
    KeepReaders(s, q);
    KeepRest(s, s');
    KeepGood(s, s', r, t.version, c);
    KeepRest(q, s');
    HeldSplit(q, s', Held(t, r, c, s.blocks[c].data.value));
  }

  lemma HeldSplit(q: State, s': State, h0: Held)
    requires ReadersOk(q) && OnlyReaders(q, s') && s'.walks == q.walks && s'.held == q.held + {h0} && HeldOk(s', h0)
    requires SameZombies(q, s') && forall r :: r in q.refs ==> SameView(q, s', r)
    ensures ReadersOk(s')
  {
    forall u | u in s'.walks ensures WalkOk(s', u) {
      assert WalkOk(q, u);
      KeepCursor(q, s', q.walks[u].root, u.version, q.walks[u].cursor);
    }
    forall h | h in s'.held ensures HeldOk(s', h) {
      if h != h0 {
        assert HeldOk(q, h);
        KeepGood(q, s', h.root, h.tx.version, h.block);
      }
    }
  }
}
