/** Safety of the transactional pool over every run. */
module TxPoolTheorems {
  import opened Options
  import TM = TxManager
  import opened TxPoolState
  import opened TxPoolSteps
  import opened TxPoolInvariant
  import opened TxPoolFrame
  import opened TxPoolLocal
  import opened TxPoolReaders
  import opened TxPoolGc
  import opened TxPoolConsolidate
  import opened TxPoolWriter
  import opened TxPoolFinish

  lemma FinishDefinedIs(s: State, block: Addr, ptr: Addr)
    requires Ready(s, LFinish(block, ptr))
    ensures Defined(s, LFinish(block, ptr)) <==> FinishDefined(s, s.mutator.op, s.mutator.root, s.mutator.orv)
  {
    hide FinishDefined;
  }

  lemma FinishSafe(s: State, block: Addr, ptr: Addr)
    requires Inv(s) && Ready(s, LFinish(block, ptr)) && ReleaseAllowed(s, LFinish(block, ptr))
    ensures Defined(s, LFinish(block, ptr)) && Inv(Apply(s, LFinish(block, ptr)))
  {
    hide Inv, Ready, Defined, Apply, ReleaseAllowed;
    FinishKinds(s, block, ptr);
    if s.mutator.op.Deref? { DerefSafe(s, block, ptr); } else { ReleaseSafe(s, block, ptr); }
  }

  lemma FinishKinds(s: State, block: Addr, ptr: Addr)
    requires Inv(s) && Ready(s, LFinish(block, ptr))
    ensures s.mutator.Collected? && !s.mutator.op.Collect?
  {
  }

  lemma StepSafe(s: State, l: Label)
    requires Inv(s) && Ready(s, l) && ReleaseAllowed(s, l)
    ensures Defined(s, l) && Inv(Apply(s, l))
  {
    hide Inv, Ready, Defined, ReleaseAllowed;
    match l {
      case LBegin(kind) => BeginCase(s, kind);
      case LCommit(i) => CommitCase(s, i);
      case LAlloc(w, r, b, p, bytes) => AllocSafe(s, w, r, b, p, bytes);
      case LStart(op, r, orv) => StartSafe(s, op, r, orv);
      case LFreeOne => FreeOneSafe(s);
      case LCopy(spare) => CopySafe(s, spare);
      case LStamp => StampSafe(s);
      case LUnlink => UnlinkSafe(s);
      case LSkip => SkipSafe(s);
      case LReclaim => ReclaimSafe(s);
      case LFinish(b, p) => FinishSafe(s, b, p);
      case LStore(w, r, bytes) => StoreSafe(s, w, r, bytes);
      case LWalk(t, r) => WalkSafe(s, t, r);
      case LTest(t) => TestSafe(s, t);
      case LFollow(t) => FollowSafe(s, t);
      case LLoad(t) => LoadSafe(s, t);
    }
  }

  lemma BeginCase(s: State, kind: TM.Kind)
    requires Inv(s) && Ready(s, LBegin(kind))
    ensures Defined(s, LBegin(kind)) && Inv(Apply(s, LBegin(kind)))
  {
    hide Inv, DoBegin;
    BeginSafe(s, kind);
  }

  lemma CommitCase(s: State, i: nat)
    requires Inv(s) && Ready(s, LCommit(i))
    ensures Defined(s, LCommit(i)) && Inv(Apply(s, LCommit(i)))
  {
    hide Inv, DoCommit;
    CommitSafe(s, i);
  }

  lemma InitialInv()
    ensures Inv(INITIAL_STATE)
  {
  }

  // ---- runs

  ghost predicate Steps(s: State, l: Label, s': State) {
    Ready(s, l) && Defined(s, l) && s' == Apply(s, l)
  }

  /** `ss` are the states of a run of the steps `ls` from the initial state. */
  ghost predicate IsRun(ls: seq<Label>, ss: seq<State>) {
    && |ss| == |ls| + 1 && ss[0] == INITIAL_STATE
    && forall i :: 0 <= i < |ls| ==> Steps(ss[i], ls[i], ss[i + 1])
  }

  /** Steps that happen are allowed: a release that is not aborts. */
  lemma StepKeepsInv(s: State, l: Label, s': State)
    requires Inv(s) && Steps(s, l, s')
    ensures Inv(s')
  {
    StepAllowed(s, l);
    hide Inv, Ready, Defined, ReleaseAllowed;
    StepSafe(s, l);
  }

  lemma StepAllowed(s: State, l: Label)
    requires Inv(s) && Ready(s, l) && Defined(s, l)
    ensures ReleaseAllowed(s, l)
  {
    hide Inv, FinishDefined;
    if l.LFinish? {
      FinishDefinedIs(s, l.block, l.ptr);
      FinishFaults(s, l.block, l.ptr);
    }
  }

  lemma {:induction false} RunInv(ls: seq<Label>, ss: seq<State>, i: nat)
    requires IsRun(ls, ss) && i < |ss|
    ensures Inv(ss[i])
  {
    if i == 0 {
      InitialInv();
    } else {
      RunInv(ls, ss, i - 1);
      hide Inv, Steps;
      StepKeepsInv(ss[i - 1], ls[i - 1], ss[i]);
    }
  }

  /** In every run, every step control reaches finds its memory alive and its assertions true,
      with one exception: a release whose newest version is neither older than everything
      running nor the releasing writer's own. */
  lemma NoFault(ls: seq<Label>, ss: seq<State>, i: nat, l: Label)
    requires IsRun(ls, ss) && i < |ss| && Ready(ss[i], l)
    ensures Defined(ss[i], l) <==> ReleaseAllowed(ss[i], l)
  {
    RunInv(ls, ss, i);
    hide Inv, Ready, Defined, ReleaseAllowed, Steps;
    if ReleaseAllowed(ss[i], l) { StepSafe(ss[i], l); }
    if Defined(ss[i], l) { StepAllowed(ss[i], l); }
  }

  // ---- snapshot reads

  lemma StepSeen(s: State, l: Label, s': State, t: TM.Tx)
    requires Inv(s) && Steps(s, l, s') && ReaderTx(s', t)
    ensures t in s'.seen
    ensures (ReaderTx(s, t) && t in s.seen && s'.seen[t] == s.seen[t])
         || (l.LBegin? && t == TM.NewTx(s.mgr, l.kind) && s'.seen[t] == s.committed)
  {
    hide RefsOk, PoolOk, DataOk, DoomedOk, ReadersOk, MutatorOk, TM.Inv, CallOk, FinishDefined, Linked;
    if l.LBegin? {
      BeginMonotone(s, l.kind);
    } else if l.LCommit? {
      CommitMonotone(s, l.index);
    } else {
      SameTransactions(s, l);
    }
  }

  ghost predicate SameTxs(s: State, s': State) {
    s'.mgr == s.mgr && s'.seen == s.seen && s'.committed == s.committed
  }

  lemma SameTransactions(s: State, l: Label)
    requires Ready(s, l) && Defined(s, l) && !l.LBegin? && !l.LCommit?
    ensures SameTxs(s, Apply(s, l))
  {
    hide Ready, Defined, Apply, SameTxs;
    match l {
      case LFinish(block, ptr) => ResultTransactions(s, l);
      case LAlloc(_, _, _, _, _) => AllocTransactions(s, l);
      case LStart(_, _, _) => StartTransactions(s, l);
      case LStore(_, _, _) => StoreTransactions(s, l);
      case LFreeOne => FreeTransactions(s, l);
      case LCopy(_) => CopyTransactions(s, l);
      case LStamp => StampTransactions(s, l);
      case LUnlink => UnlinkTransactions(s, l);
      case LSkip => SkipTransactions(s, l);
      case LReclaim => ReclaimTransactions(s, l);
      case _ => ReaderTransactions(s, l);
    }
  }

  lemma ReaderTransactions(s: State, l: Label)
    requires Ready(s, l) && Defined(s, l) && (l.LWalk? || l.LTest? || l.LFollow? || l.LLoad?)
    ensures SameTxs(s, Apply(s, l))
  {
    hide CallOk, Linked, CutFrom, Readable, Retag, DoDeref, DoRelease, FinishDefined, ReaderTx, WriterTx, CanConsolidate;
  }

  lemma ResultTransactions(s: State, l: Label)
    requires Ready(s, l) && Defined(s, l) && l.LFinish?
    ensures SameTxs(s, Apply(s, l))
  {
    hide CallOk, Linked, CutFrom, Readable, Retag, DoDeref, DoRelease, FinishDefined, ReaderTx, WriterTx, CanConsolidate;
    FinishTransactions(s, l.block, l.ptr);
  }

  lemma AllocTransactions(s: State, l: Label)
    requires Ready(s, l) && Defined(s, l) && l.LAlloc?
    ensures SameTxs(s, Apply(s, l))
  {
    hide CallOk, Linked, CutFrom, Readable, Retag, FinishDefined, ReaderTx, WriterTx, CanConsolidate;
  }

  lemma StartTransactions(s: State, l: Label)
    requires Ready(s, l) && Defined(s, l) && l.LStart?
    ensures SameTxs(s, Apply(s, l))
  {
    hide CallOk, Linked, CutFrom, Readable, Retag, FinishDefined, ReaderTx, WriterTx, CanConsolidate;
  }

  lemma StoreTransactions(s: State, l: Label)
    requires Ready(s, l) && Defined(s, l) && l.LStore?
    ensures SameTxs(s, Apply(s, l))
  {
    hide CallOk, Linked, CutFrom, Readable, Retag, FinishDefined, ReaderTx, WriterTx, CanConsolidate;
  }

  lemma FreeTransactions(s: State, l: Label)
    requires Ready(s, l) && Defined(s, l) && l.LFreeOne?
    ensures SameTxs(s, Apply(s, l))
  {
    hide CallOk, Linked, CutFrom, Readable, Retag, FinishDefined, ReaderTx, WriterTx, CanConsolidate;
  }

  lemma CopyTransactions(s: State, l: Label)
    requires Ready(s, l) && Defined(s, l) && l.LCopy?
    ensures SameTxs(s, Apply(s, l))
  {
    hide CallOk, Linked, CutFrom, Readable, Retag, FinishDefined, ReaderTx, WriterTx, CanConsolidate, DoCopy, SameTxs;
    CopyFields(s, l.spare);
  }

  lemma CopyFields(s: State, spare: Addr)
    requires s.mutator.Freeing? && CanConsolidate(s, s.mutator.root, s.mutator.orv)
    requires s.mutator.root in s.refs && Readable(s, s.mutator.root) && Readable(s, s.refs[s.mutator.root].chain[0])
    ensures SameTxs(s, DoCopy(s, spare)) && DoCopy(s, spare).refs == s.refs
  {
    hide Linked;
  }

  lemma StampTransactions(s: State, l: Label)
    requires Ready(s, l) && Defined(s, l) && l.LStamp?
    ensures SameTxs(s, Apply(s, l))
  {
    hide CallOk, Linked, CutFrom, Readable, Retag, FinishDefined, ReaderTx, WriterTx, CanConsolidate;
  }

  lemma UnlinkTransactions(s: State, l: Label)
    requires Ready(s, l) && Defined(s, l) && l.LUnlink?
    ensures SameTxs(s, Apply(s, l))
  {
    hide CallOk, Linked, CutFrom, Readable, Retag, FinishDefined, ReaderTx, WriterTx, CanConsolidate;
  }

  lemma SkipTransactions(s: State, l: Label)
    requires Ready(s, l) && Defined(s, l) && l.LSkip?
    ensures SameTxs(s, Apply(s, l))
  {
    hide CallOk, Linked, CutFrom, Readable, Retag, FinishDefined, ReaderTx, WriterTx, CanConsolidate;
  }

  lemma ReclaimTransactions(s: State, l: Label)
    requires Ready(s, l) && Defined(s, l) && l.LReclaim?
    ensures SameTxs(s, Apply(s, l))
  {
    hide CallOk, Linked, CutFrom, Readable, Retag, FinishDefined, ReaderTx, WriterTx, CanConsolidate, CanReclaim, SameTxs, DoReclaim;
    ReclaimFields(s);
  }

  lemma ReclaimFields(s: State)
    requires s.mutator.Trimmed? && s.mutator.root in s.blocks
    ensures SameTxs(s, DoReclaim(s)) && DoReclaim(s).refs.Keys <= s.refs.Keys
    ensures forall r :: r in DoReclaim(s).refs ==> DoReclaim(s).refs[r] == s.refs[r]
  {
    hide CanReclaim;
  }

  lemma FinishTransactions(s: State, block: Addr, ptr: Addr)
    requires s.mutator.Collected? && FinishDefined(s, s.mutator.op, s.mutator.root, s.mutator.orv)
    ensures s.mutator.op.Deref? ==> SameTxs(s, DoDeref(s, s.mutator.op.writer, s.mutator.op.write, block, ptr))
    ensures s.mutator.op.Release? ==> SameTxs(s, DoRelease(s, s.mutator.op.writer, block))
  {
    hide Linked, Candidate;
  }

  /** What a reader has seen is what was committed when it began. */
  lemma {:induction false} SeenAtBegin(ls: seq<Label>, ss: seq<State>, n: nat, t: TM.Tx) returns (i: nat)
    requires IsRun(ls, ss) && n < |ss| && ReaderTx(ss[n], t)
    ensures i < n && ls[i].LBegin? && t == TM.NewTx(ss[i].mgr, ls[i].kind)
    ensures t in ss[n].seen && ss[n].seen[t] == ss[i].committed
  {
    hide Inv, Steps, ReaderTx;
    NoReaderYet(t);
    RunInv(ls, ss, n - 1);
    StepSeen(ss[n - 1], ls[n - 1], ss[n], t);
    if ls[n - 1].LBegin? && t == TM.NewTx(ss[n - 1].mgr, ls[n - 1].kind) && ss[n].seen[t] == ss[n - 1].committed {
      i := n - 1;
    } else {
      i := SeenAtBegin(ls, ss, n - 1, t);
    }
  }

  lemma NoReaderYet(t: TM.Tx)
    ensures !ReaderTx(INITIAL_STATE, t)
  {
  }

  lemma {:induction false} VersionAtIsNewestBy(hist: seq<Version>, v: nat, seen: set<nat>)
    requires |hist| > 0
    requires forall i :: 0 <= i < |hist| - 1 ==> (hist[i].ts <= v <==> hist[i].ts in seen)
    ensures VersionAt(hist, v) == NewestBy(hist, seen)
  {
    if hist[0].ts > v && |hist| > 1 { VersionAtIsNewestBy(hist[1..], v, seen); }
  }

  lemma SnapshotIsNewest(s: State, t: TM.Tx, r: Addr)
    requires TM.Inv(s.mgr) && SeenOk(s) && ReaderTx(s, t) && r in s.refs && HistOk(s, s.refs[r].hist)
    ensures VersionAt(s.refs[r].hist, t.version) == NewestBy(s.refs[r].hist, s.seen[t])
  {
    var hist := s.refs[r].hist;
    forall i | 0 <= i < |hist| - 1 ensures hist[i].ts <= t.version <==> hist[i].ts in s.seen[t] {
      assert Written(s, hist[i].ts) && hist[i].ts > hist[|hist| - 1].ts;
      if w :| w in s.mgr.running && w.kind.ReadWrite? && w.id == hist[i].ts {
        WriterFacts(s, w);
        ZeroBound(s);
        ReaderBound(s, t, 0);
      }
    }
    VersionAtIsNewestBy(hist, t.version, s.seen[t]);
  }

  /** Snapshot reads: in every interleaving, the walk of a reader on a reference live for it
      ends at a block in use, whose bytes are those of the newest version whose writer had
      committed when the reader began. */
  lemma SnapshotRead(ls: seq<Label>, ss: seq<State>, n: nat, t: TM.Tx) returns (i: nat)
    requires IsRun(ls, ss) && n < |ss| && Ready(ss[n], LLoad(t))
    ensures i < n && ls[i].LBegin? && t == TM.NewTx(ss[i].mgr, ls[i].kind)
    ensures var s, k := ss[n], ss[n].walks[t];
      && k.root in s.refs && |s.refs[k.root].hist| > 0
      && Readable(s, k.cursor.c) && s.blocks[k.cursor.c].data.Some?
      && Content(s, k.cursor.c) == NewestBy(s.refs[k.root].hist, ss[i].committed)
  {
    RunInv(ls, ss, n);
    hide Steps, RefsOk, PoolOk, DataOk, DoomedOk, ReadersOk, MutatorOk, TM.Inv, SeenOk, Good, HistOk, VersionAt;
    var s, k := ss[n], ss[n].walks[t];
    LoadDefined(s, t);
    RefHist(s, k.root);
    i := SeenAtBegin(ls, ss, n, t);
    SnapshotIsNewest(s, t, k.root);
    GoodContent(s, t, k.root, k.cursor.c);
  }

  lemma RefHist(s: State, r: Addr)
    requires RefsOk(s) && r in s.refs
    ensures HistOk(s, s.refs[r].hist) && |s.refs[r].hist| > 0
  {
    assert RefOk(s, r);
  }

  // ---- pointers handed to readers

  ghost predicate SameAt(s: State, s': State, r: Addr, v: nat) {
    && r in s.refs && r in s'.refs && |s.refs[r].hist| > 0 && |s'.refs[r].hist| > 0
    && VersionAt(s'.refs[r].hist, v) == VersionAt(s.refs[r].hist, v)
  }

  lemma HistStable(s: State, l: Label, s': State, r: Addr, v: nat)
    requires Inv(s) && Steps(s, l, s') && r in s.refs && |s.refs[r].hist| > 0 && r in s'.refs && v <= s.mgr.lastCommitted
    ensures SameAt(s, s', r, v)
  {
    hide Inv, Steps, VersionAt;
    match l {
      case LFinish(block, ptr) => FinishHist(s, block, ptr, s', r, v);
      case LStore(w, q, bytes) => StoreHist(s, w, q, bytes, s', r, v);
      case _ => OtherHist(s, l, s', r);
    }
  }

  lemma OtherHist(s: State, l: Label, s': State, r: Addr)
    requires Inv(s) && Steps(s, l, s') && r in s.refs && r in s'.refs && !l.LFinish? && !l.LStore?
    ensures s'.refs[r].hist == s.refs[r].hist
  {
    hide CallOk, Linked, CutFrom, Readable, Retag, RefsOk, PoolOk, DataOk, DoomedOk, MutatorOk, ReadersOk, SeenOk, TM.Inv, FinishDefined, DoDeref, DoRelease,
      DoStart, DoFreeOne, DoCopy, DoStamp, DoUnlink, DoSkip, DoReclaim, CanConsolidate, Newest, WriterTx, ReaderTx;
    if l.LAlloc? { NewRoot(s, l.root); }
    if l.LStart? || l.LFreeOne? || l.LCopy? || l.LStamp? || l.LUnlink? || l.LSkip? || l.LReclaim? { CollectorHist(s, l, r); }
  }

  lemma CollectorHist(s: State, l: Label, r: Addr)
    requires Ready(s, l) && Defined(s, l) && r in s.refs && r in Apply(s, l).refs
    requires l.LStart? || l.LFreeOne? || l.LCopy? || l.LStamp? || l.LUnlink? || l.LSkip? || l.LReclaim?
    ensures Apply(s, l).refs[r].hist == s.refs[r].hist
  {
    hide Ready, Defined, Apply;
    if l.LStart? || l.LFreeOne? || l.LCopy? { FirstHalfHist(s, l, r); } else { SecondHalfHist(s, l, r); }
  }

  lemma FirstHalfHist(s: State, l: Label, r: Addr)
    requires Ready(s, l) && Defined(s, l) && r in s.refs && r in Apply(s, l).refs
    requires l.LStart? || l.LFreeOne? || l.LCopy?
    ensures Apply(s, l).refs[r].hist == s.refs[r].hist
  {
    hide CallOk, Linked, CutFrom, Readable, Retag, FinishDefined, DoDeref, DoRelease, DoCopy, DoStart, CanConsolidate, Newest, WriterTx, ReaderTx;
    if l.LCopy? { CopyFields(s, l.spare); }
    if l.LStart? { StartHist(s, l.op, l.root, l.orv, r); }
  }

  lemma StartHist(s: State, op: Op, root: Addr, orv: nat, r: Addr)
    requires Linked(s, root) && r in s.refs
    ensures r in DoStart(s, op, root, orv).refs && DoStart(s, op, root, orv).refs[r].hist == s.refs[r].hist
  {
    hide CutFrom, CutAt, HeadOf;
    var k := CutFrom(s, ChainAt(s, root), orv, 0);
    if root in s.refs && k < |ChainAt(s, root)| { CutHist(s, op, root, orv, k, r); }
  }

  lemma CutHist(s: State, op: Op, root: Addr, orv: nat, k: nat, r: Addr)
    requires root in s.refs && k < |ChainAt(s, root)| && ChainAt(s, root)[k] in s.blocks && r in s.refs
    ensures r in CutAt(s, op, root, orv, k).refs && CutAt(s, op, root, orv, k).refs[r].hist == s.refs[r].hist
  {
    hide Retag, HeadOf;
  }

  lemma SecondHalfHist(s: State, l: Label, r: Addr)
    requires Ready(s, l) && Defined(s, l) && r in s.refs && r in Apply(s, l).refs
    requires l.LStamp? || l.LUnlink? || l.LSkip? || l.LReclaim?
    ensures Apply(s, l).refs[r].hist == s.refs[r].hist
  {
    hide CallOk, Linked, CutFrom, Readable, Retag, FinishDefined, DoDeref, DoRelease, CanConsolidate, Newest, WriterTx, ReaderTx;
  }

  lemma StoreHist(s: State, w: TM.Tx, q: Addr, bytes: Bytes, s': State, r: Addr, v: nat)
    requires Inv(s) && Steps(s, LStore(w, q, bytes), s') && r in s.refs && |s.refs[r].hist| > 0
    requires v <= s.mgr.lastCommitted
    ensures SameAt(s, s', r, v)
  {
    hide Inv, RefOk, Faithful, TombOk, Linked;
    StoreFacts(s, w, q, bytes);
    if q == r { ReplacedHead(s.refs[r].hist, Version(s.refs[r].hist[0].ts, Some(bytes)), v); }
  }

  lemma ReplacedHead(hist: seq<Version>, x: Version, v: nat)
    requires |hist| > 1 && x.ts == hist[0].ts > v
    ensures VersionAt([x] + hist[1..], v) == VersionAt(hist, v)
  {
    assert ([x] + hist[1..])[1..] == hist[1..];
  }

  lemma FinishHist(s: State, block: Addr, ptr: Addr, s': State, r: Addr, v: nat)
    requires Inv(s) && Steps(s, LFinish(block, ptr), s') && r in s.refs && |s.refs[r].hist| > 0
    requires v <= s.mgr.lastCommitted
    ensures SameAt(s, s', r, v)
  {
    hide Inv, RefOk, Faithful, TombOk, Linked, NewestAbove, VersionAt, Candidate, Written;
    var q, w := CallFacts(s);
    var hist := s.refs[q].hist;
    FinishHistIs(s, block, ptr, s');
    if r == q {
      hide Apply, Ready, Defined;
      PushVersionAt(hist, Version(w.version, None), v);
      PushVersionAt(hist, Version(w.version, hist[0].value), v);
      if hist[0].ts == w.version {
        LongHist(s, q, w);
        ReplacedHead(hist, Version(hist[0].ts, None), v);
      }
    } else {
      FinishOther(s, block, ptr, s', r);
    }
  }

  lemma FinishOther(s: State, block: Addr, ptr: Addr, s': State, r: Addr)
    requires Steps(s, LFinish(block, ptr), s') && r in s.refs && r != s.mutator.root
    ensures r in s'.refs && s'.refs[r] == s.refs[r]
  {
    hide Linked, Candidate, DoDeref, DoRelease, FinishDefined;
    if s.mutator.op.Deref? {
      DerefOther(s, s.mutator.op.writer, s.mutator.op.write, block, ptr, r);
    } else if s.mutator.op.Release? {
      ReleaseOther(s, s.mutator.op.writer, block, r);
    }
  }

  lemma DerefOther(s: State, w: TM.Tx, write: bool, block: Addr, ptr: Addr, r: Addr)
    requires s.mutator.Collected? && FinishDefined(s, Deref(w, write), s.mutator.root, s.mutator.orv)
    requires r in s.refs && r != s.mutator.root
    ensures r in DoDeref(s, w, write, block, ptr).refs && DoDeref(s, w, write, block, ptr).refs[r] == s.refs[r]
  {
    hide Linked, Candidate;
  }

  lemma ReleaseOther(s: State, w: TM.Tx, block: Addr, r: Addr)
    requires s.mutator.Collected? && FinishDefined(s, Release(w), s.mutator.root, s.mutator.orv)
    requires r in s.refs && r != s.mutator.root
    ensures r in DoRelease(s, w, block).refs && DoRelease(s, w, block).refs[r] == s.refs[r]
  {
    hide Linked;
  }

  ghost predicate FinishesAs(s: State, s': State, r: Addr, w: TM.Tx) {
    && r in s.refs && |s.refs[r].hist| > 0 && r in s'.refs
    && var hist, hist' := s.refs[r].hist, s'.refs[r].hist;
       || hist' == hist
       || hist' == [Version(w.version, hist[0].value)] + hist
       || hist' == [Version(w.version, None)] + hist
       || (hist[0].ts == w.version && hist' == [Version(hist[0].ts, None)] + hist[1..])
  }

  lemma FinishHistIs(s: State, block: Addr, ptr: Addr, s': State)
    requires Inv(s) && Steps(s, LFinish(block, ptr), s') && s.mutator.Collected?
    ensures !s.mutator.op.Collect? && FinishesAs(s, s', s.mutator.root, s.mutator.op.writer)
  {
    hide Inv, RefOk, Faithful, TombOk, Linked, NewestAbove, Candidate, Written;
    var r, w := CallFacts(s);
    if s.mutator.op.Deref? { WriterCandidateAt(s, r, w); }
  }

  lemma WriterCandidateAt(s: State, r: Addr, w: TM.Tx)
    requires Inv(s) && WriterTx(s, w) && r in s.refs && RefOk(s, r) && Faithful(s, r)
    ensures Linked(s, r) && Candidate(s, r, w.version) == Source(s, r, 0)
  {
    hide RefsOk, PoolOk, DataOk, DoomedOk, ReadersOk, MutatorOk, TM.Inv, SeenOk, RefOk, Faithful;
    WriterCandidate(s, r, w);
  }

  lemma HeldStep(s: State, l: Label, s': State, h: Held)
    requires Inv(s) && Steps(s, l, s') && h in s.held && h.tx in s'.mgr.running
    ensures h in s'.held && Inv(s')
    ensures HeldAt(s, h) && HeldAt(s', h) && s'.data[h.ptr] == s.data[h.ptr]
  {
    StepKeepsInv(s, l, s');
    HeldStays(s, l, s', h);
    HeldFacts(s, h);
    HeldFacts(s', h);
    hide Inv, Live, Good, Steps;
    ReaderOld(s, h);
    HistStable(s, l, s', h.root, h.tx.version);
  }

  ghost predicate HeldAt(s: State, h: Held) {
    && h.block in s.blocks && s.blocks[h.block].data == Some(h.ptr)
    && h.ptr in s.data && h.ptr in s.owner && s.owner[h.ptr] == h.block
  }

  lemma HeldFacts(s: State, h: Held)
    requires Inv(s) && h in s.held
    ensures HeldAt(s, h) && LiveFor(s, h.tx, h.root)
    ensures VersionAt(s.refs[h.root].hist, h.tx.version).value == Some(s.data[h.ptr])
  {
    hide RefsOk, PoolOk, DoomedOk, MutatorOk, TM.Inv, SeenOk, Good, VersionAt;
    assert HeldOk(s, h);
    GoodContent(s, h.tx, h.root, h.block);
  }

  lemma ReaderOld(s: State, h: Held)
    requires Inv(s) && h in s.held
    ensures h.tx.version <= s.mgr.lastCommitted
  {
    hide RefsOk, PoolOk, DoomedOk, DataOk, MutatorOk, TM.Inv, SeenOk, Good;
    assert HeldOk(s, h);
    ZeroBound(s);
    ReaderBound(s, h.tx, 0);
  }

  lemma HeldStays(s: State, l: Label, s': State, h: Held)
    requires Inv(s) && Steps(s, l, s') && h in s.held && h.tx in s'.mgr.running
    ensures h in s'.held
  {
    hide RefsOk, PoolOk, DoomedOk, DataOk, MutatorOk, SeenOk, ReadersOk, CallOk, Linked, CutFrom, Readable, Retag, FinishDefined, TM.Inv, DoDeref, DoRelease;
    if l.LCommit? { CommittedGone(s, l.index); }
    if l.LFinish? { FinishHeld(s, l.block, l.ptr); }
  }

  lemma FinishHeld(s: State, block: Addr, ptr: Addr)
    requires s.mutator.Collected? && FinishDefined(s, s.mutator.op, s.mutator.root, s.mutator.orv)
    ensures s.mutator.op.Deref? ==> DoDeref(s, s.mutator.op.writer, s.mutator.op.write, block, ptr).held == s.held
    ensures s.mutator.op.Release? ==> DoRelease(s, s.mutator.op.writer, block).held == s.held
  {
    hide Linked, Candidate;
  }

  /** A transaction that commits leaves the list. */
  lemma CommittedGone(s: State, i: nat)
    requires TM.Inv(s.mgr) && i < |s.mgr.running|
    ensures s.mgr.running[i] !in DoCommit(s, i).mgr.running
  {
    var s' := DoCommit(s, i);
    forall k | 0 <= k < |s'.mgr.running| ensures s'.mgr.running[k] != s.mgr.running[i] {
      if k < i {
        assert TM.PairOk(s.mgr.running[k], s.mgr.running[i]);
      } else {
        assert TM.PairOk(s.mgr.running[i], s.mgr.running[k + 1]);
      }
    }
  }

  /** A pointer handed to a reader keeps its block, its owner and its bytes through every
      step until the reader commits. */
  lemma {:induction false} PointerStable(ls: seq<Label>, ss: seq<State>, i: nat, j: nat, h: Held)
    requires IsRun(ls, ss) && i <= j < |ss| && h in ss[i].held
    requires forall k :: i <= k <= j ==> h.tx in ss[k].mgr.running
    ensures h in ss[j].held && HeldAt(ss[i], h) && HeldAt(ss[j], h)
    ensures ss[j].data[h.ptr] == ss[i].data[h.ptr]
  {
    hide Inv, Steps, HeldAt;
    RunInv(ls, ss, i);
    if i == j {
      HeldFacts(ss[i], h);
    } else {
      PointerStable(ls, ss, i, j - 1, h);
      RunInv(ls, ss, j - 1);
      HeldStep(ss[j - 1], ls[j - 1], ss[j], h);
    }
  }

  // ---- version chains

  /** Along a chain timestamps strictly decrease, and they exceed the root's unless the root is
      being overwritten by a consolidation. */
  lemma ChainOrder(ls: seq<Label>, ss: seq<State>, i: nat, r: Addr)
    requires IsRun(ls, ss) && i < |ss| && r in ss[i].refs
    ensures Linked(ss[i], r) && Decreasing(ss[i], ss[i].refs[r].chain)
    ensures var s, chain := ss[i], ss[i].refs[r].chain;
      chain != [] && !Consolidating(s, r) ==> s.blocks[r].ts < s.blocks[chain[|chain| - 1]].ts
  {
    hide Inv, Steps, Linked, Decreasing;
    RunInv(ls, ss, i);
    ChainOrderAt(ss[i], r);
  }

  lemma ChainOrderAt(s: State, r: Addr)
    requires Inv(s) && r in s.refs
    ensures Linked(s, r) && Decreasing(s, s.refs[r].chain)
    ensures var chain := s.refs[r].chain;
      chain != [] && !Consolidating(s, r) ==>
        r in s.blocks && chain[|chain| - 1] in s.blocks && s.blocks[r].ts < s.blocks[chain[|chain| - 1]].ts
  {
    hide TM.Inv, SeenOk, ReadersOk, PoolOk, DataOk, DoomedOk, MutatorOk, Faithful, HistOk;
    RefInvOf(s, r);
  }

  /** After a collection at `orv` the chain is empty or its newest version is newer than `orv`. */
  lemma ChainAfterCollection(ls: seq<Label>, ss: seq<State>, i: nat)
    requires IsRun(ls, ss) && i < |ss| && ss[i].mutator.Trimmed?
    ensures NewestAbove(ss[i], ss[i].mutator.root, ss[i].mutator.orv)
  {
    RunInv(ls, ss, i);
  }

  /** A root is reclaimed only by a context collection and only when the newest version of its
      reference is a tombstone older than `orv`, which no running transaction is older than. */
  lemma ReclaimOnlyDead(ls: seq<Label>, ss: seq<State>, i: nat)
    requires IsRun(ls, ss) && i < |ls| && ls[i] == LReclaim && ss[i].mutator.Trimmed?
    requires ss[i].mutator.root in ss[i].refs && ss[i].mutator.root !in ss[i + 1].refs
    ensures var m, R := ss[i].mutator, ss[i].refs[ss[i].mutator.root];
      && m.op.Collect? && |R.hist| > 0 && R.hist[0].value.None? && R.hist[0].ts < m.orv
      && TM.SafeBound(ss[i].mgr, m.orv)
  {
    RunInv(ls, ss, i);
    assert Steps(ss[i], ls[i], ss[i + 1]);
    ReclaimedIsDead(ss[i]);
  }

  /** No entry of the garbage list dangles and none is entered twice: a release enters a root
      that is not there yet, a consolidation a block that is no entry. */
  lemma GarbageNeverDangles(ls: seq<Label>, ss: seq<State>, i: nat, a: Addr)
    requires IsRun(ls, ss) && i < |ss| && a in ss[i].garbage
    ensures a in ss[i].blocks
    ensures a in ss[i].refs ==> |ss[i].refs[a].hist| > 0 && ss[i].refs[a].hist[0].value.None?
    ensures forall r :: r in ss[i].refs ==> a !in ss[i].refs[r].chain
  {
    RunInv(ls, ss, i);
    var s := ss[i];
    hide Faithful, Linked, HistOk;
    forall r | r in s.refs ensures a !in s.refs[r].chain { RefInvOf(s, r); }
    if a in s.refs { RefInvOf(s, a); }
  }
}
