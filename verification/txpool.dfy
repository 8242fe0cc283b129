/** The transactional pool as the code runs it: loops over the blocks in memory. Every method
    is an uninterrupted run of the protocol's steps. */
module TxPool {
  import opened Options
  import TM = TxManager
  import opened TxPoolState
  import opened TxPoolSteps
  import opened TxPoolInvariant
  import opened TxPoolFrame
  import opened TxPoolLocal
  import opened TxPoolReaders
  import opened TxPoolGc
  import opened TxPoolConsolidate
  import opened TxPoolWriter
  import opened TxPoolFinish
  import opened TxPoolTheorems
  import opened TxPoolCollect

  /** `s'` is reached from `s` by the steps `ls`. */
  ghost predicate Path(s: State, ls: seq<Label>, s': State)
    decreases ls
  {
    if ls == [] then s' == s
    else Ready(s, ls[0]) && Defined(s, ls[0]) && Path(Apply(s, ls[0]), ls[1..], s')
  }

  lemma {:induction false} PathAppend(s: State, ls: seq<Label>, m: State, l: Label, s': State)
    requires Path(s, ls, m) && Steps(m, l, s')
    ensures Path(s, ls + [l], s')
    decreases ls
  {
    hide Ready, Defined, Apply;
    if ls == [] {
      assert (ls + [l])[1..] == [];
      StepIs(m, l, s');
    } else {
      PathAppend(Apply(s, ls[0]), ls[1..], m, l, s');
      assert (ls + [l])[1..] == ls[1..] + [l];
    }
  }

  lemma StepIs(m: State, l: Label, s': State)
    requires Steps(m, l, s')
    ensures Ready(m, l) && Defined(m, l) && s' == Apply(m, l) && Path(s', [], s')
  {
  }

  /** One step of the protocol, with the run so far. */
  lemma Advance(s0: State, ls: seq<Label>, s: State, l: Label) returns (s': State)
    requires Path(s0, ls, s) && Inv(s) && Ready(s, l) && ReleaseAllowed(s, l)
    ensures Inv(s') && Steps(s, l, s') && Path(s0, ls + [l], s')
  {
    hide Inv, Ready, ReleaseAllowed, Path;
    StepSafe(s, l);
    s' := Apply(s, l);
    Taken(s, l);
    PathAppend(s0, ls, s, l, s');
  }

  lemma Taken(s: State, l: Label)
    requires Ready(s, l) && Defined(s, l)
    ensures Steps(s, l, Apply(s, l))
  {
  }

  // ---- what each step does to memory

  lemma StartEffect(s: State, s': State, op: Op, r: Addr, orv: nat, k: nat)
    requires Inv(s) && Steps(s, LStart(op, r, orv), s') && k <= |ChainAt(s, r)|
    requires forall j :: 0 <= j < k ==> ChainAt(s, r)[j] in s.blocks && s.blocks[ChainAt(s, r)[j]].ts > orv
    requires k < |ChainAt(s, r)| ==> ChainAt(s, r)[k] in s.blocks && s.blocks[ChainAt(s, r)[k]].ts <= orv
    ensures s'.mutator.Freeing? && s'.mutator.op == op && s'.mutator.root == r && s'.mutator.orv == orv
    ensures s'.data == s.data && s'.garbage == s.garbage
    ensures if k < |ChainAt(s, r)| then
              var c := ChainAt(s, r)[k];
              && s'.blocks == s.blocks[c := s.blocks[c].(next := None)] && s'.mutator.cursor == s.blocks[c].next
            else s'.blocks == s.blocks && s'.mutator.cursor == None
    ensures s'.refs.Keys == s.refs.Keys
    ensures ChainAt(s', r) == if k < |ChainAt(s, r)| then ChainAt(s, r)[..k + 1] else ChainAt(s, r)
  {
    hide RefsOk, PoolOk, DataOk, DoomedOk, ReadersOk, MutatorOk, TM.Inv, SeenOk, CallOk, Retag;
    var chain := ChainAt(s, r);
    var i := CutFrom(s, chain, orv, 0);
    assert i == k;
    if k < |chain| {
      assert s.blocks[chain[k]].next == Following(chain, k);
      assert chain[k + 1..] != [] ==> chain[k + 1..][0] == chain[k + 1];
    }
  }

  lemma ChainWalk(s: State, r: Addr, i: nat)
    requires Linked(s, r) && i < |ChainAt(s, r)|
    ensures ChainAt(s, r)[i] in s.blocks && s.blocks[ChainAt(s, r)[i]].next == Following(ChainAt(s, r), i)
  {
  }

  lemma StartReady(s: State, op: Op, r: Addr, orv: nat)
    requires Inv(s) && s.mutator.Idle? && CallOk(s, op, r, orv)
    ensures Ready(s, LStart(op, r, orv)) && Linked(s, r)
    ensures forall l: Label :: !l.LFinish? ==> ReleaseAllowed(s, l)
  {
    hide RefOk, Faithful, TombOk, DataOk, DoomedOk, ReadersOk, TM.Inv, SeenOk;
    StartDefined(s, op, r, orv);
  }

  lemma FreeEffect(s: State, s': State)
    requires Steps(s, LFreeOne, s')
    ensures s.mutator.Freeing? && s.mutator.cursor.Some? && Readable(s, s.mutator.cursor.value)
    ensures var a := s.mutator.cursor.value;
      && s'.mutator == s.mutator.(cursor := s.blocks[a].next) && s'.blocks == s.blocks - {a}
      && s'.data == s.data - (if s.blocks[a].data.Some? then {s.blocks[a].data.value} else {})
      && s'.garbage == s.garbage && s'.doomed == (if s.doomed == [] then [] else s.doomed[1..]) && s'.refs == s.refs
  {
  }

  lemma DoomedLength(s: State)
    requires Inv(s) && s.mutator.Freeing?
    ensures s.mutator.cursor.Some? <==> s.doomed != []
  {
    hide RefsOk, PoolOk, DataOk, ReadersOk, MutatorOk, TM.Inv, SeenOk;
  }

  lemma SingleTest(s: State)
    requires Inv(s) && s.mutator.Freeing? && s.mutator.cursor.None?
    ensures s.mutator.root in s.blocks
    ensures s.blocks[s.mutator.root].next.Some? ==> s.blocks[s.mutator.root].next.value in s.blocks
    ensures CanConsolidate(s, s.mutator.root, s.mutator.orv) <==>
      && s.blocks[s.mutator.root].next.Some?
      && s.blocks[s.blocks[s.mutator.root].next.value].next.None?
      && s.blocks[s.blocks[s.mutator.root].next.value].ts <= s.mutator.orv
    ensures CanConsolidate(s, s.mutator.root, s.mutator.orv) ==>
      ChainAt(s, s.mutator.root)[0] == s.blocks[s.mutator.root].next.value && s.mutator.root in s.refs
  {
    hide RefsOk, PoolOk, DataOk, ReadersOk, MutatorOk, TM.Inv, SeenOk, DoomedOk;
    TargetLinked(s);
    var r := s.mutator.root;
    var chain := ChainAt(s, r);
    if chain != [] { assert s.blocks[chain[0]].next == Following(chain, 0); }
  }

  lemma CopyEffect(s: State, s': State, spare: Addr, y: Addr)
    requires Inv(s) && Steps(s, LCopy(spare), s') && ChainAt(s, s.mutator.root)[0] == y
    ensures s.mutator.root in s.blocks && y in s.blocks && y != s.mutator.root
    ensures Readable(s, y) && Readable(s, s.mutator.root)
    ensures s'.mutator == Copied(s.mutator.op, s.mutator.root, s.mutator.orv) && s'.garbage == s.garbage && s'.refs == s.refs
    ensures var r, p := s.mutator.root, s.blocks[y].data;
      if p.Some? then
        var q := if s.blocks[r].data.Some? then s.blocks[r].data.value else spare;
        s'.blocks == s.blocks[r := s.blocks[r].(data := Some(q))] && s'.data == s.data[q := s.data[p.value]]
      else
        && s.blocks[r].data.Some?
        && s'.blocks == s.blocks[r := s.blocks[r].(data := None)] && s'.data == s.data - {s.blocks[r].data.value}
  {
    hide RefsOk, PoolOk, DataOk, ReadersOk, MutatorOk, TM.Inv, SeenOk, DoomedOk, Linked;
    var z := Single(s, s.mutator.root, s.mutator.orv);
  }

  lemma StampEffect(s: State, s': State, y: Addr)
    requires Inv(s) && Steps(s, LStamp, s') && ChainAt(s, s.mutator.root)[0] == y
    ensures s.mutator.root in s.blocks && y in s.blocks
    ensures s'.mutator == Stamped(s.mutator.op, s.mutator.root, s.mutator.orv)
    ensures s'.blocks == s.blocks[s.mutator.root := s.blocks[s.mutator.root].(ts := s.blocks[y].ts)]
    ensures s'.data == s.data && s'.garbage == s.garbage && s'.refs == s.refs
  {
    hide RefsOk, PoolOk, DataOk, ReadersOk, MutatorOk, TM.Inv, SeenOk, DoomedOk;
  }

  lemma UnlinkEffect(s: State, s': State, y: Addr)
    requires Steps(s, LUnlink, s') && ChainAt(s, s.mutator.root)[0] == y
    ensures s.mutator.root in s.blocks
    ensures s'.mutator == Trimmed(s.mutator.op, s.mutator.root, s.mutator.orv)
    ensures s'.blocks == s.blocks[s.mutator.root := s.blocks[s.mutator.root].(next := None)]
    ensures s'.data == s.data && s'.garbage == s.garbage + {y}
    ensures s'.refs.Keys == s.refs.Keys && ChainAt(s', s.mutator.root) == []
  {
  }

  lemma SkipEffect(s: State, s': State)
    requires Steps(s, LSkip, s')
    ensures s'.mutator == Trimmed(s.mutator.op, s.mutator.root, s.mutator.orv)
    ensures s'.blocks == s.blocks && s'.data == s.data && s'.garbage == s.garbage && s'.refs == s.refs
  {
  }

  lemma ReclaimEffect(s: State, s': State)
    requires Inv(s) && Steps(s, LReclaim, s')
    ensures s.mutator.Trimmed? && s.mutator.root in s.blocks && s'.data == s.data
    ensures var r, op := s.mutator.root, s.mutator.op;
      && s'.mutator == (if op.Collect? then Idle else Collected(op, r, s.mutator.orv))
      && (CanReclaim(s, r, s.mutator.orv) ==> op.Collect?)
      && s'.blocks == (if CanReclaim(s, r, s.mutator.orv) then s.blocks - {r} else s.blocks)
      && s'.garbage == (if CanReclaim(s, r, s.mutator.orv) then s.garbage - {r} else s.garbage)
      && s'.refs == (if CanReclaim(s, r, s.mutator.orv) then s.refs - {r} else s.refs)
  {
    hide RefsOk, PoolOk, DataOk, ReadersOk, MutatorOk, TM.Inv, SeenOk, DoomedOk;
    if CanReclaim(s, s.mutator.root, s.mutator.orv) { CollectsOnly(s); }
  }

  lemma PathEmpty(s: State)
    ensures Path(s, [], s) && SameHists(s, s)
  {
  }

  /** Collecting an entry never needs a fresh data block: what it consolidates is a tombstone. */
  lemma EntryIsDead(s: State, y: Addr)
    requires Inv(s) && s.mutator.Freeing? && s.mutator.op.Collect?
    requires CanConsolidate(s, s.mutator.root, s.mutator.orv) && ChainAt(s, s.mutator.root)[0] == y
    ensures y in s.blocks && s.blocks[y].data.None?
  {
    hide RefOk, Faithful, PoolOk, DataOk, ReadersOk, TM.Inv, SeenOk, DoomedOk;
    var r := s.mutator.root;
    RefInvOf(s, r);
    NewestValue(s, r);
  }

  /** The versions of the references that are left are the same. */
  ghost predicate SameHists(s: State, s': State) {
    && (forall r :: r in s'.refs ==> r in s.refs && s'.refs[r].hist == s.refs[r].hist)
    && s'.mgr == s.mgr
  }

  predicate GcLabel(l: Label) {
    l.LStart? || l.LFreeOne? || l.LCopy? || l.LStamp? || l.LUnlink? || l.LSkip? || l.LReclaim?
  }

  lemma GcHists(s0: State, s: State, l: Label, s': State)
    requires SameHists(s0, s) && Inv(s) && Steps(s, l, s') && GcLabel(l)
    ensures SameHists(s0, s')
  {
    hide Inv, Steps;
    GcRefs(s, l, s');
    forall r | r in s'.refs ensures s'.refs[r].hist == s.refs[r].hist { OtherHist(s, l, s', r); }
  }

  lemma GcKeeps(s0: State, s: State, l: Label, s': State, r: Addr)
    requires SameHists(s0, s) && Spared(s0, s, r) && Inv(s) && Steps(s, l, s') && GcStep(s, l, r)
    ensures SameHists(s0, s') && Spared(s0, s', r)
  {
    hide Inv, Steps, SameHists, Spared;
    GcHists(s0, s, l, s');
    StepSpares(s0, s, l, s', r);
  }

  lemma GcRefs(s: State, l: Label, s': State)
    requires Steps(s, l, s') && GcLabel(l)
    ensures s'.refs.Keys <= s.refs.Keys && s'.mgr == s.mgr
  {
    hide Steps;
    match l {
      case LStart(op, r, orv) => StartRefs(s, op, r, orv, s');
      case LCopy(spare) => CopyRefs(s, spare, s');
      case _ => OtherRefs(s, l, s');
    }
  }

  lemma StartRefs(s: State, op: Op, r: Addr, orv: nat, s': State)
    requires Steps(s, LStart(op, r, orv), s')
    ensures s'.refs.Keys <= s.refs.Keys && s'.mgr == s.mgr
  {
    hide CallOk, Linked, CutFrom, Retag;
  }

  lemma CopyRefs(s: State, spare: Addr, s': State)
    requires Steps(s, LCopy(spare), s')
    ensures s'.refs == s.refs && s'.mgr == s.mgr
  {
    hide Linked;
  }

  lemma OtherRefs(s: State, l: Label, s': State)
    requires Steps(s, l, s') && (l.LFreeOne? || l.LStamp? || l.LUnlink? || l.LSkip? || l.LReclaim?)
    ensures s'.refs.Keys <= s.refs.Keys && s'.mgr == s.mgr
  {
    hide Linked, CanConsolidate, CanReclaim;
  }

  predicate NoDuplicates(xs: seq<Addr>) {
    forall i, j :: 0 <= i < j < |xs| ==> xs[i] != xs[j]
  }

  ghost function Members(xs: seq<Addr>): set<Addr> {
    set x | x in xs
  }

  lemma NotYetAnEntry(s: State, y: Addr)
    requires Inv(s) && s.mutator.Stamped? && |ChainAt(s, s.mutator.root)| == 1 && ChainAt(s, s.mutator.root)[0] == y
    ensures y !in s.garbage
  {
    hide Faithful, DataOk, ReadersOk, TM.Inv, SeenOk, DoomedOk, Linked;
    var r := s.mutator.root;
    RefInvOf(s, r);
    assert s.refs[r].chain[0] == y;
  }

  /** Blocks only go, and those that stay keep their timestamps, the one of `r` apart. */
  ghost predicate SameTimes(was: map<Addr, Block>, blocks: map<Addr, Block>, r: Addr) {
    forall a :: a in blocks && a != r ==> a in was && blocks[a].ts == was[a].ts
  }

  lemma SameTimesTrans(b0: map<Addr, Block>, b1: map<Addr, Block>, b2: map<Addr, Block>, b3: map<Addr, Block>, r: Addr)
    requires SameTimes(b0, b1, r) && SameTimes(b1, b2, r) && SameTimes(b2, b3, r)
    ensures SameTimes(b0, b3, r) && forall a :: SameTimes(b0, b3 - {a}, r)
  {
  }

  lemma OldVersions(s: State, s': State, r: Addr, orv: nat)
    requires Inv(s) && Inv(s') && r in s.refs && r in s'.refs && (s'.mutator.Idle? || s'.mutator.Collected?)
    requires ChainIn(s, r) && s'.refs[r].chain == Kept(s, r, orv) && SameTimes(s.blocks, s'.blocks, r)
    ensures r in s'.blocks && ChainIn(s', r) && (OneOld(s', r, orv) <==> !Splits(s, r, orv))
  {
    hide RefsOk, PoolOk, DataOk, DoomedOk, ReadersOk, MutatorOk, TM.Inv, SeenOk, Faithful, TombOk, Decreasing, OneOld, Splits, Kept;
    RefInvOf(s, r);
    RefChain(s, r);
    OneOldExact(s, s', r, orv);
  }

  /** What a collection keeps is decided by where the chain is cut. */
  lemma CutKeeps(s: State, s': State, r: Addr, orv: nat, k: nat)
    requires ChainIn(s, r) && k <= |ChainAt(s, r)|
    requires forall j :: 0 <= j < k ==> s.blocks[ChainAt(s, r)[j]].ts > orv
    requires k < |ChainAt(s, r)| ==> s.blocks[ChainAt(s, r)[k]].ts <= orv
    requires ChainAt(s', r) == if k < |ChainAt(s, r)| then ChainAt(s, r)[..k + 1] else ChainAt(s, r)
    requires s'.blocks.Keys == s.blocks.Keys && forall a :: a in s.blocks ==> s'.blocks[a].ts == s.blocks[a].ts
    ensures Kept(s, r, orv) == if CanConsolidate(s', r, orv) then [] else ChainAt(s', r)
  {
    assert CutFrom(s, ChainAt(s, r), orv, 0) == k;
    assert ChainAt(s', r) != [] ==> ChainAt(s', r)[0] == ChainAt(s, r)[0];
  }

  /** Freeing what was cut off does not decide whether the rest is a single old version. */
  lemma SameTest(s: State, s': State, r: Addr, orv: nat)
    requires Inv(s) && Inv(s') && s.mutator.Freeing? && s'.mutator.Freeing? && s.mutator.root == r == s'.mutator.root
    requires s'.refs == s.refs && forall a :: a in s'.blocks ==> a in s.blocks && s'.blocks[a] == s.blocks[a]
    ensures CanConsolidate(s', r, orv) <==> CanConsolidate(s, r, orv)
  {
    hide RefsOk, PoolOk, DataOk, DoomedOk, ReadersOk, MutatorOk, TM.Inv, SeenOk, Linked;
    TargetLinked(s');
    LinkedIn(s', r);
  }

  lemma SameDeath(s: State, s': State, r: Addr, orv: nat)
    requires SameHists(s, s') && s'.refs.Keys == s.refs.Keys && (r !in s.refs ==> s'.blocks == s.blocks)
    ensures Dead(s', r, orv) <==> Dead(s, r, orv)
  {
  }

  lemma OneInChain(s: State, r: Addr, orv: nat)
    requires CanConsolidate(s, r, orv)
    ensures |ChainAt(s, r)| == 1
  {
  }

  lemma CallStarts(s: State, w: TM.Tx, write: bool, r: Addr)
    requires CallOk(s, Deref(w, write), r, w.orv)
    ensures r in s.refs && |s.refs[r].hist| > 0 && s.refs[r].hist[0].value.Some?
  {
  }

  /** What the writer's walk finds once the collection of its call is over. */
  lemma DerefFacts(s: State, w: TM.Tx, write: bool, r: Addr, orv: nat)
    requires Inv(s) && s.mutator == Collected(Deref(w, write), r, orv)
    ensures r in s.refs && Linked(s, r) && |s.refs[r].hist| > 0 && w.version == w.id && s.refs[r].hist[0].ts <= w.version
    ensures WriterTx(s, w) && r in s.blocks && s.blocks[r].ts < w.version
    ensures CutFrom(s, ChainAt(s, r), w.version, 0) == 0
    ensures Readable(s, Source(s, r, 0)) && s.blocks[Source(s, r, 0)].data.Some?
    ensures Content(s, Source(s, r, 0)) == s.refs[r].hist[0]
    ensures forall block, ptr :: block !in s.blocks && ptr !in s.data ==>
              Ready(s, LFinish(block, ptr)) && ReleaseAllowed(s, LFinish(block, ptr))
    ensures SafeRefs(s, r)
  {
    hide RefsOk, PoolOk, DataOk, DoomedOk, ReadersOk, TM.Inv, SeenOk, Faithful, TombOk, HistOk, MutatorOk;
    var _, _ := CallFacts(s);
    WriterCandidate(s, r, w);
    RefChain(s, r);
    NewestSource(s, r);
  }

  lemma CollectedRef(s: State, w: TM.Tx, write: bool, r: Addr, orv: nat)
    requires Inv(s) && s.mutator == Collected(Deref(w, write), r, orv)
    ensures r in s.refs
  {
    hide RefsOk, PoolOk, DataOk, DoomedOk, ReadersOk, TM.Inv, SeenOk;
  }

  lemma ReleasedRef(s: State, w: TM.Tx, r: Addr, orv: nat)
    requires Inv(s) && s.mutator == Collected(Release(w), r, orv)
    ensures r in s.refs
  {
    hide RefsOk, PoolOk, DataOk, DoomedOk, ReadersOk, TM.Inv, SeenOk;
  }

  ghost predicate SafeRefs(s: State, r: Addr) {
    r in s.refs && r !in s.refs[r].chain
  }

  lemma LinkedIn(s: State, r: Addr)
    requires Linked(s, r)
    ensures forall j :: 0 <= j < |ChainAt(s, r)| ==> ChainAt(s, r)[j] in s.blocks
  {
  }

  lemma CutUnique(s: State, chain: seq<Addr>, v: nat, k: nat)
    requires forall j :: 0 <= j < |chain| ==> chain[j] in s.blocks
    requires k <= |chain| && (forall j :: 0 <= j < k ==> s.blocks[chain[j]].ts > v)
    requires k < |chain| ==> s.blocks[chain[k]].ts <= v
    ensures CutFrom(s, chain, v, 0) == k
  {
  }

  lemma DerefEffect(s: State, s': State, w: TM.Tx, write: bool, r: Addr, orv: nat, block: Addr, ptr: Addr)
    requires s.mutator == Collected(Deref(w, write), r, orv) && Steps(s, LFinish(block, ptr), s')
    requires r in s.refs && |s.refs[r].hist| > 0 && CutFrom(s, ChainAt(s, r), w.version, 0) == 0 && SafeRefs(s, r)
    requires Readable(s, Source(s, r, 0)) && s.blocks[Source(s, r, 0)].data.Some?
    ensures s'.mutator.Idle? && s'.garbage == s.garbage && r in s.blocks && r in s'.refs && s'.mgr == s.mgr
    ensures var c := Source(s, r, 0);
      if write && s.blocks[c].ts < w.version then
        var bytes := s.data[s.blocks[c].data.value];
        && s'.blocks == s.blocks[block := Block(w.version, Some(ptr), if c != r then Some(c) else None)]
                                [r := s.blocks[r].(next := Some(block))]
        && s'.data == s.data[ptr := bytes]
        && s'.refs[r].hist == [Version(w.version, Some(bytes))] + s.refs[r].hist
        && s'.refs[r].chain == [block] + s.refs[r].chain
      else s'.blocks == s.blocks && s'.data == s.data && s'.refs == s.refs
  {
    assert s.refs[r].chain != [] ==> s.refs[r].chain[0] in s.refs[r].chain;
  }

  lemma SameHist(s: State, s': State, r: Addr)
    requires SameHists(s, s') && r in s'.refs
    ensures r in s.refs && s'.refs[r].hist == s.refs[r].hist && s'.mgr == s.mgr
  {
  }

  lemma StoreIsFree(s: State, w: TM.Tx, r: Addr, bytes: Bytes)
    ensures ReleaseAllowed(s, LStore(w, r, bytes))
  {
  }

  lemma StoreEffect(s: State, s': State, w: TM.Tx, r: Addr, p: Addr, bytes: Bytes)
    requires Steps(s, LStore(w, r, bytes), s') && Source(s, r, 0) in s.blocks && s.blocks[Source(s, r, 0)].data == Some(p)
    ensures s'.blocks == s.blocks && s'.data == s.data[p := bytes] && s'.garbage == s.garbage
    ensures r in s.refs && r in s'.refs && |s.refs[r].hist| > 0
    ensures s'.refs[r].hist == [Version(s.refs[r].hist[0].ts, Some(bytes))] + s.refs[r].hist[1..]
  {
  }

  lemma ReleaseFacts(s: State, w: TM.Tx, r: Addr, orv: nat)
    requires Inv(s) && s.mutator == Collected(Release(w), r, orv)
    ensures r in s.refs && Linked(s, r) && |s.refs[r].hist| > 0 && r in s.blocks && w.version == w.id && r !in s.garbage
    ensures Readable(s, Source(s, r, 0)) && s.blocks[Source(s, r, 0)].data.Some? && SafeRefs(s, r)
    ensures Content(s, Source(s, r, 0)) == s.refs[r].hist[0]
    ensures s.blocks[Source(s, r, 0)].ts <= orv ==> s.refs[r].chain == []
    ensures forall block, ptr :: block !in s.blocks && ptr !in s.data ==>
              Ready(s, LFinish(block, ptr)) &&
              (ReleaseAllowed(s, LFinish(block, ptr)) <==> s.refs[r].hist[0].ts <= orv || s.refs[r].hist[0].ts == w.id)
  {
    hide RefsOk, PoolOk, DataOk, DoomedOk, ReadersOk, TM.Inv, SeenOk, Faithful, TombOk, HistOk, MutatorOk;
    var _, _ := CallFacts(s);
    RefChain(s, r);
    NotGarbage(s, r);
    NewestSource(s, r);
    if s.blocks[Source(s, r, 0)].ts <= orv { ReleaseDropsNothing(s); }
  }

  lemma ReleaseEffect(s: State, s': State, w: TM.Tx, r: Addr, orv: nat, block: Addr, ptr: Addr)
    requires s.mutator == Collected(Release(w), r, orv) && Steps(s, LFinish(block, ptr), s')
    requires r in s.refs && |s.refs[r].hist| > 0 && SafeRefs(s, r) && r in s.blocks
    requires Readable(s, Source(s, r, 0)) && s.blocks[Source(s, r, 0)].data.Some?
    requires s.blocks[Source(s, r, 0)].ts <= orv ==> s.refs[r].chain == []
    ensures s'.mutator.Idle? && s'.garbage == s.garbage + {r} && r in s'.refs
    ensures var c := Source(s, r, 0);
      if s.blocks[c].ts <= orv then
        && c == r && s'.blocks == s.blocks[block := Block(w.version, None, None)][r := s.blocks[r].(next := Some(block))]
        && s'.data == s.data && s'.refs[r].hist == [Version(w.version, None)] + s.refs[r].hist
        && s'.refs[r].chain == [block]
      else
        && s'.refs[r].chain == s.refs[r].chain
        && s'.blocks == s.blocks[c := s.blocks[c].(data := None)] && s'.data == s.data - {s.blocks[c].data.value}
        && s'.refs[r].hist == [Version(s.refs[r].hist[0].ts, None)] + s.refs[r].hist[1..]
  {
    hide Linked, Candidate;
  }

  lemma AllocEffect(s: State, s': State, w: TM.Tx, r: Addr, block: Addr, ptr: Addr, bytes: Bytes)
    requires Steps(s, LAlloc(w, r, block, ptr, bytes), s')
    ensures s'.mutator == s.mutator && s'.garbage == s.garbage && r in s'.refs && r != block
    ensures s'.blocks == s.blocks[r := Block(0, None, Some(block))][block := Block(w.version, Some(ptr), None)]
    ensures s'.data == s.data[ptr := bytes] && s'.refs[r].hist == [Version(w.version, Some(bytes)), Version(0, None)]
  {
  }

  // ---- a reader's walk, uninterrupted

  lemma WalkEffect(s: State, s': State, t: TM.Tx, r: Addr)
    requires Steps(s, LWalk(t, r), s')
    ensures r in s.blocks && s' == s.(walks := s.walks[t := Walk(r, At(s.blocks[r].next))])
  {
  }

  lemma TestEffect(s: State, s': State, t: TM.Tx)
    requires Steps(s, LTest(t), s')
    ensures t in s.walks && s.walks[t].cursor.At?
    ensures var p := s.walks[t].cursor.p;
      && (p.Some? ==> p.value in s.blocks)
      && s' == s.(walks := s.walks[t := s.walks[t].(cursor :=
                   if p.None? then Chosen(s.walks[t].root)
                   else if s.blocks[p.value].ts > t.version then TooNew(p.value) else Chosen(p.value))])
  {
  }

  lemma FollowEffect(s: State, s': State, t: TM.Tx)
    requires Steps(s, LFollow(t), s')
    ensures t in s.walks && s.walks[t].cursor.TooNew? && s.walks[t].cursor.a in s.blocks
    ensures s' == s.(walks := s.walks[t := s.walks[t].(cursor := At(s.blocks[s.walks[t].cursor.a].next))])
  {
  }

  lemma LoadEffect(s: State, s': State, t: TM.Tx)
    requires Inv(s) && Steps(s, LLoad(t), s')
    ensures t in s.walks && s.walks[t].cursor.Chosen? && s.walks[t].root in s.refs
    ensures var k := s.walks[t];
      && Readable(s, k.cursor.c) && s.blocks[k.cursor.c].data.Some? && |s.refs[k.root].hist| > 0
      && s.data[s.blocks[k.cursor.c].data.value] in s.data.Values
      && VersionAt(s.refs[k.root].hist, t.version).value == Some(s.data[s.blocks[k.cursor.c].data.value])
      && s' == s.(walks := s.walks - {t}, held := s.held + {Held(t, k.root, k.cursor.c, s.blocks[k.cursor.c].data.value)})
  {
    hide Inv, VersionAt, CallOk, FinishDefined;
    LoadDefined(s, t);
  }

  lemma WalkFree(s: State, t: TM.Tx)
    ensures forall l: Label :: l.LWalk? || l.LTest? || l.LFollow? || l.LLoad? ==> ReleaseAllowed(s, l)
    ensures t in s.walks ==>
      && (s.walks[t].cursor.At? ==> Ready(s, LTest(t)))
      && (s.walks[t].cursor.TooNew? ==> Ready(s, LFollow(t)))
      && (s.walks[t].cursor.Chosen? ==> Ready(s, LLoad(t)))
  {
  }

  lemma ReaderRef(s: State, r: Addr)
    requires Inv(s) && r in s.refs
    ensures Linked(s, r)
  {
    hide PoolOk, DataOk, DoomedOk, ReadersOk, TM.Inv, SeenOk, MutatorOk, Linked, Faithful, TombOk, HistOk;
    RefInvOf(s, r);
  }

  lemma SameLinks(s: State, s': State, r: Addr)
    requires Linked(s, r) && s'.blocks == s.blocks && s'.refs == s.refs
    ensures Linked(s', r) && ChainAt(s', r) == ChainAt(s, r)
  {
  }

  class Pool {
    var blocks: map<Addr, Block>
    var data: map<Addr, Bytes>
    var entries: seq<Addr>           // the garbage list of the thread context, first entry first
    ghost var state: State

    ghost predicate InMemory()
      reads this
    {
      Inv(state) && state.blocks == blocks && state.data == data
    }

    ghost predicate Valid()
      reads this
    {
      InMemory() && NoDuplicates(entries) && Members(entries) == state.garbage
    }

    /** The first loop of a collection: the newest version at most `orv`. */
    method FindCut(root: Addr, orv: nat) returns (found: Option<Addr>, ghost k: nat)
      requires Valid() && Linked(state, root)
      ensures var chain := ChainAt(state, root);
        && k <= |chain| && found == (if k < |chain| then Some(chain[k]) else None)
        && (forall j :: 0 <= j < k ==> chain[j] in blocks && blocks[chain[j]].ts > orv)
        && (k < |chain| ==> chain[k] in blocks && blocks[chain[k]].ts <= orv)
      ensures found.Some? ==> found.value in blocks && blocks[found.value].ts <= orv
    {
      hide Inv, Linked, NoDuplicates, Members;
      ghost var chain := ChainAt(state, root);
      HeadIs(state, root);
      LinkedIn(state, root);
      found, k := blocks[root].next, 0;
      while found.Some? && blocks[found.value].ts > orv
        invariant k <= |chain| && found == (if k < |chain| then Some(chain[k]) else None)
        invariant found.Some? ==> found.value in blocks
        invariant forall j :: 0 <= j < k ==> chain[j] in blocks && blocks[chain[j]].ts > orv
        decreases |chain| - k
      {
        ChainWalk(state, root, k);
        found := blocks[found.value].next;
        k := k + 1;
      }
    }

    /** Cutting the chain after the newest version at most `orv`. */
    method Cut(ghost op: Op, root: Addr, orv: nat) returns (next: Option<Addr>, ghost ls: seq<Label>)
      requires Valid() && state.mutator.Idle? && CallOk(state, op, root, orv)
      modifies this
      ensures Valid() && Path(old(state), ls, state) && SameHists(old(state), state) && Spared(old(state), state, root)
      ensures state.mutator == Freeing(op, root, orv, next)
      ensures entries == old(entries) && data == old(data) && blocks.Keys == old(blocks.Keys)
      ensures state.refs.Keys == old(state).refs.Keys && ChainIn(old(state), root)
      ensures Kept(old(state), root, orv) == if CanConsolidate(state, root, orv) then [] else ChainAt(state, root)
      ensures root !in old(state).refs ==> next == None && blocks == old(blocks)
      ensures SameTimes(old(blocks), blocks, root)
    {
      hide Inv, Steps, CallOk, Path, NoDuplicates, Members, SameHists, Spared, Kept, CanConsolidate;
      StartReady(state, op, root, orv);
      LinkedIn(state, root);
      SparedRefl(state, root);
      var found, k := FindCut(root, orv);
      PathEmpty(state);
      ghost var s := Advance(state, [], state, LStart(op, root, orv));
      StartEffect(state, s, op, root, orv, k);
      GcKeeps(state, state, LStart(op, root, orv), s, root);
      ls := [] + [LStart(op, root, orv)];
      CutKeeps(state, s, root, orv, k);
      next := None;
      if found.Some? {
        next := blocks[found.value].next;
        blocks := blocks[found.value := blocks[found.value].(next := None)];
      }
      state := s;
    }

    /** Freeing what was cut off, block by block. */
    method FreeRest(ghost op: Op, root: Addr, orv: nat, first: Option<Addr>, ghost s0: State, ghost before: seq<Label>)
      returns (ghost ls: seq<Label>)
      requires Valid() && state.mutator == Freeing(op, root, orv, first)
      requires Path(s0, before, state) && SameHists(s0, state) && Spared(s0, state, root)
      modifies this
      ensures Valid() && state.mutator == Freeing(op, root, orv, None) && Path(s0, ls, state) && SameHists(s0, state) && Spared(s0, state, root)
      ensures entries == old(entries) && blocks.Keys <= old(blocks.Keys) && data.Keys <= old(data.Keys)
      ensures state.refs == old(state).refs && (first.None? ==> blocks == old(blocks))
      ensures CanConsolidate(state, root, orv) <==> CanConsolidate(old(state), root, orv)
      ensures SameTimes(old(blocks), blocks, root)
    {
      hide Inv, Steps, Path, NoDuplicates, Members, SameHists, Spared, CanConsolidate;
      var next := first;
      ls := before;
      while next.Some?
        invariant state.refs == old(state).refs && (first.None? ==> next.None? && blocks == old(blocks))
        invariant forall a :: a in blocks ==> a in old(blocks) && blocks[a] == old(blocks)[a]
        invariant Valid() && Path(s0, ls, state) && SameHists(s0, state) && Spared(s0, state, root) && entries == old(entries)
        invariant state.mutator == Freeing(op, root, orv, next)
        invariant blocks.Keys <= old(blocks.Keys) && data.Keys <= old(data.Keys)
        decreases |state.doomed|
      {
        DoomedLength(state);
        ghost var s := Advance(s0, ls, state, LFreeOne);
        FreeEffect(state, s);
        GcKeeps(s0, state, LFreeOne, s, root);
        ls := ls + [LFreeOne];
        var b := blocks[next.value];
        if b.data.Some? { data := data - {b.data.value}; }
        blocks := blocks - {next.value};
        next := b.next;
        state := s;
      }
      SameTest(old(state), state, root, orv);
    }

    /** The garbage collection of one reference, or of one garbage entry. */
    method Gc(ghost op: Op, root: Addr, orv: nat, spare: Addr) returns (gced: bool, ghost ls: seq<Label>)
      requires Valid() && state.mutator.Idle? && CallOk(state, op, root, orv) && spare !in data
      modifies this
      ensures InMemory() && Path(old(state), ls, state) && SameHists(old(state), state) && Spared(old(state), state, root)
      ensures state.mutator == if op.Collect? then Idle else Collected(op, root, orv)
      ensures gced <==> root !in blocks
      ensures gced ==> op.Collect?
      ensures NoDuplicates(entries) && state.garbage == Members(entries) - (if gced then {root} else {})
      ensures op.Collect? ==> spare !in data
      ensures exists more :: entries == more + old(entries)
      ensures blocks.Keys <= old(blocks.Keys) && data.Keys <= old(data.Keys) + {spare}
      ensures gced <==> Dead(old(state), root, orv)
      ensures ChainIn(old(state), root)
      ensures root in old(state).refs && !gced ==> root in state.refs && state.refs[root].chain == Kept(old(state), root, orv)
      ensures root in old(state).refs && !gced ==>
                root in blocks && ChainIn(state, root) && (OneOld(state, root, orv) <==> !Splits(old(state), root, orv))
    {
      hide SameTimes, OneOld, Splits;
      hide Inv, Steps, CallOk, Path, NoDuplicates, Members, SameHists, Spared, Kept, CanConsolidate;
      ghost var b0 := blocks;
      var next, run := Cut(op, root, orv);
      ghost var b1 := blocks;
      run := FreeRest(op, root, orv, next, old(state), run);
      ghost var b2 := blocks;
      run := Consolidate(op, root, orv, spare, old(state), run);
      SameTimesTrans(b0, b1, b2, blocks, root);
      ghost var s := Advance(old(state), run, state, LReclaim);
      ReclaimEffect(state, s);
      ReclaimExact(state);
      SameDeath(old(state), state, root, orv);
      GcKeeps(old(state), state, LReclaim, s, root);
      gced := false;
      if blocks[root].data.None? && blocks[root].next.None? && blocks[root].ts < orv {
        blocks := blocks - {root};
        gced := true;
      }
      ls := run + [LReclaim];
      state := s;
      if root in old(state).refs && !gced { OldVersions(old(state), state, root, orv); }
    }

    /** The second half: a single version at most `orv` moves into the root. */
    method Consolidate(ghost op: Op, root: Addr, orv: nat, spare: Addr, ghost s0: State, ghost before: seq<Label>)
      returns (ghost ls: seq<Label>)
      requires Valid() && state.mutator == Freeing(op, root, orv, None) && Path(s0, before, state) && spare !in data
      requires SameHists(s0, state) && Spared(s0, state, root)
      modifies this
      ensures Valid() && state.mutator == Trimmed(op, root, orv) && Path(s0, ls, state) && SameHists(s0, state) && Spared(s0, state, root)
      ensures op.Collect? ==> spare !in data
      ensures exists more :: entries == more + old(entries)
      ensures blocks.Keys <= old(blocks.Keys) && data.Keys <= old(data.Keys) + {spare}
      ensures state.refs.Keys == old(state).refs.Keys && (root !in old(state).refs ==> blocks == old(blocks))
      ensures SameTimes(old(blocks), blocks, root)
      ensures ChainAt(state, root) == if CanConsolidate(old(state), root, orv) then [] else ChainAt(old(state), root)
    {
      hide Inv, Steps, Path, NoDuplicates, Members, SameHists, Spared, CanConsolidate;
      SingleTest(state);
      var y := blocks[root].next;
      if y.Some? && blocks[y.value].next.None? && blocks[y.value].ts <= orv {
        ls := MoveIntoRoot(op, root, orv, y.value, spare, s0, before);
      } else {
        ghost var s := Advance(s0, before, state, LSkip);
        SkipEffect(state, s);
        GcKeeps(s0, state, LSkip, s, root);
        state := s;
        ls := before + [LSkip];
        assert entries == [] + old(entries);
      }
    }

    method CopyIntoRoot(ghost op: Op, root: Addr, orv: nat, y: Addr, spare: Addr, ghost s0: State, ghost before: seq<Label>)
      returns (ghost ls: seq<Label>)
      requires Valid() && state.mutator == Freeing(op, root, orv, None) && Path(s0, before, state) && spare !in data
      requires SameHists(s0, state) && Spared(s0, state, root)
      requires CanConsolidate(state, root, orv) && ChainAt(state, root)[0] == y
      modifies this
      ensures Valid() && state.mutator == Copied(op, root, orv) && Path(s0, ls, state) && SameHists(s0, state) && Spared(s0, state, root)
      ensures op.Collect? ==> spare !in data
      ensures state.refs == old(state).refs && SameTimes(old(blocks), blocks, root)
      ensures entries == old(entries) && blocks.Keys <= old(blocks.Keys) && data.Keys <= old(data.Keys) + {spare}
    {
      hide Inv, Steps, Path, NoDuplicates, Members, SameHists, Spared;
      if op.Collect? { EntryIsDead(state, y); }
      ghost var s := Advance(s0, before, state, LCopy(spare));
      CopyEffect(state, s, spare, y);
      GcKeeps(s0, state, LCopy(spare), s, root);
      var b := blocks[root];
      if blocks[y].data.Some? {
        var p := if b.data.Some? then b.data.value else spare;
        blocks, data := blocks[root := b.(data := Some(p))], data[p := data[blocks[y].data.value]];
      } else {
        data := data - {b.data.value};
        blocks := blocks[root := b.(data := None)];
      }
      state := s;
      ls := before + [LCopy(spare)];
    }

    method StampRoot(ghost op: Op, root: Addr, orv: nat, y: Addr, ghost s0: State, ghost before: seq<Label>)
      returns (ghost ls: seq<Label>)
      requires Valid() && state.mutator == Copied(op, root, orv) && Path(s0, before, state)
      requires SameHists(s0, state) && Spared(s0, state, root)
      requires |ChainAt(state, root)| == 1 && ChainAt(state, root)[0] == y
      modifies this`blocks, this`state
      ensures Valid() && state.mutator == Stamped(op, root, orv) && Path(s0, ls, state) && SameHists(s0, state) && Spared(s0, state, root)
      ensures state.refs == old(state).refs && SameTimes(old(blocks), blocks, root) && blocks.Keys == old(blocks.Keys)
      ensures root in blocks && y in blocks && blocks[root].ts == blocks[y].ts
    {
      hide Inv, Steps, Path, NoDuplicates, Members, SameHists, Spared;
      ghost var s := Advance(s0, before, state, LStamp);
      StampEffect(state, s, y);
      GcKeeps(s0, state, LStamp, s, root);
      blocks := blocks[root := blocks[root].(ts := blocks[y].ts)];
      state := s;
      ls := before + [LStamp];
    }

    method MoveIntoRoot(ghost op: Op, root: Addr, orv: nat, y: Addr, spare: Addr, ghost s0: State, ghost before: seq<Label>)
      returns (ghost ls: seq<Label>)
      requires Valid() && state.mutator == Freeing(op, root, orv, None) && Path(s0, before, state) && spare !in data
      requires SameHists(s0, state) && Spared(s0, state, root)
      requires CanConsolidate(state, root, orv) && ChainAt(state, root)[0] == y
      modifies this
      ensures Valid() && state.mutator == Trimmed(op, root, orv) && Path(s0, ls, state) && SameHists(s0, state) && Spared(s0, state, root)
      ensures op.Collect? ==> spare !in data
      ensures entries == [y] + old(entries)
      ensures state.refs.Keys == old(state).refs.Keys && ChainAt(state, root) == [] && SameTimes(old(blocks), blocks, root)
      ensures blocks.Keys <= old(blocks.Keys) && data.Keys <= old(data.Keys) + {spare}
    {
      hide Inv, Steps, Path, NoDuplicates, Members, SameHists, Spared, CanConsolidate;
      OneInChain(state, root, orv);
      ls := CopyIntoRoot(op, root, orv, y, spare, s0, before);
      ls := StampRoot(op, root, orv, y, s0, ls);
      ghost var s := Advance(s0, ls, state, LUnlink);
      UnlinkEffect(state, s, y);
      GcKeeps(s0, state, LUnlink, s, root);
      blocks := blocks[root := blocks[root].(next := None)];
      NotYetAnEntry(state, y);
      AddEntry(entries, y);
      entries := [y] + entries;
      state := s;
      ls := ls + [LUnlink];
    }

    /** A dereference by a writer: collect, find the newest version, copy it on a first write. */
    method WriterPtr(w: TM.Tx, root: Addr, write: bool, spare: Addr, block: Addr, ptr: Addr)
      returns (p: Addr, ghost ls: seq<Label>)
      requires Valid() && state.mutator.Idle? && CallOk(state, Deref(w, write), root, w.orv)
      requires spare !in data && ptr !in data && spare != ptr && block !in blocks
      modifies this
      ensures Valid() && state.mutator.Idle? && Path(old(state), ls, state)
      ensures root in old(state).refs && root in state.refs
      ensures var h0, h1 := old(state).refs[root].hist, state.refs[root].hist;
        && |h0| > 0 && h0[0].value.Some? && p in data && h0[0].value == Some(data[p])
        && h1 == (if write && h0[0].ts < w.version then [Version(w.version, h0[0].value)] + h0 else h0)
        && (write ==> h1[0].ts == w.version)
      ensures var c := Source(state, root, 0); c in blocks && blocks[c].data == Some(p)
      ensures ChainIn(old(state), root)
      ensures var first := write && old(state).refs[root].hist[0].ts < w.version;
        && (first ==> p == ptr)
        && ChainAt(state, root) == (if first then [block] else []) + Kept(old(state), root, w.orv)
      ensures write ==>
        && Newest(state, root, w.id)
        && (forall h :: h in state.held ==> h.ptr != p) && (forall bytes :: Ready(state, LStore(w, root, bytes)))
    {
      hide Inv, Steps, Path, NoDuplicates, Members, Linked, CallOk, Dead, Kept, Spared, SameHists, Ready, ChainIn, Newest;
      CallStarts(state, w, write, root);
      var gced, run := Gc(Deref(w, write), root, w.orv, spare);
      CollectedRef(state, w, write, root, w.orv);
      SameHist(old(state), state, root);
      p, ls := HandOut(w, root, write, block, ptr, old(state), run);
    }

    /** The end of a dereference by a writer, once its collection is over. */
    method HandOut(w: TM.Tx, root: Addr, write: bool, block: Addr, ptr: Addr, ghost s0: State, ghost before: seq<Label>)
      returns (p: Addr, ghost ls: seq<Label>)
      requires Valid() && state.mutator == Collected(Deref(w, write), root, w.orv) && Path(s0, before, state)
      requires ptr !in data && block !in blocks
      modifies this`blocks, this`data, this`state
      ensures Valid() && state.mutator.Idle? && Path(s0, ls, state)
      ensures root in old(state).refs && root in state.refs && |old(state).refs[root].hist| > 0
      ensures var h0, h1 := old(state).refs[root].hist, state.refs[root].hist;
              var first := write && h0[0].ts < w.version;
        && h0[0].value.Some? && p in data && h0[0].value == Some(data[p])
        && h1 == (if first then [Version(w.version, h0[0].value)] + h0 else h0)
        && (write ==> h1[0].ts == w.version)
        && (first ==> p == ptr)
        && ChainAt(state, root) == (if first then [block] else []) + ChainAt(old(state), root)
      ensures var c := Source(state, root, 0); c in blocks && blocks[c].data == Some(p)
      ensures write ==>
        && Newest(state, root, w.id)
        && (forall h :: h in state.held ==> h.ptr != p) && (forall bytes :: Ready(state, LStore(w, root, bytes)))
    {
      hide Inv, Steps, Path, NoDuplicates, Members, CutFrom, Linked, Ready, ReleaseAllowed;
      ghost var s := state;
      DerefFacts(s, w, write, root, w.orv);
      var found, k := FindCut(root, w.version);
      LinkedIn(s, root);
      CutUnique(s, ChainAt(s, root), w.version, k);
      var c := if found.Some? then found.value else root;
      assert c == Source(s, root, 0);
      ghost var s' := Advance(s0, before, s, LFinish(block, ptr));
      ls := before + [LFinish(block, ptr)];
      DerefEffect(s, s', w, write, root, w.orv, block, ptr);
      if write && blocks[c].ts < w.version {
        data := data[ptr := data[blocks[c].data.value]];
        blocks := blocks[block := Block(w.version, Some(ptr), if c != root then Some(c) else None)];
        blocks := blocks[root := blocks[root].(next := Some(block))];
        p := ptr;
      } else {
        p := blocks[c].data.value;
      }
      state := s';
      if write { WritePointer(s', w, root, p); }
    }

    /** A store of the writer through the pointer it was handed: the protocol's store, and no other. */
    method Store(w: TM.Tx, root: Addr, p: Addr, bytes: Bytes)
      requires Valid() && Ready(state, LStore(w, root, bytes))
      requires var c := Source(state, root, 0); c in blocks && blocks[c].data == Some(p)
      modifies this`data, this`state
      ensures Valid() && Path(old(state), [LStore(w, root, bytes)], state) && data == old(data)[p := bytes]
      ensures root in state.refs && root in old(state).refs && |old(state).refs[root].hist| > 0
      ensures state.refs[root].hist == [Version(old(state).refs[root].hist[0].ts, Some(bytes))] + old(state).refs[root].hist[1..]
    {
      hide Inv, Steps, Path, NoDuplicates, Members, Ready;
      ghost var s0 := state;
      PathEmpty(s0);
      StoreIsFree(s0, w, root, bytes);
      ghost var s := Advance(s0, [], s0, LStore(w, root, bytes));
      StoreEffect(s0, s, w, root, p, bytes);
      data := data[p := bytes];
      state := s;
      assert [] + [LStore(w, root, bytes)] == [LStore(w, root, bytes)];
    }

    /** Freeing a reference: a tombstone, or the writer's own version emptied; the root
        becomes a garbage entry. */
    method Free(w: TM.Tx, root: Addr, spare: Addr, block: Addr) returns (ghost ls: seq<Label>)
      requires Valid() && state.mutator.Idle? && CallOk(state, Release(w), root, w.orv)
      requires spare !in data && block !in blocks
      requires state.refs[root].hist[0].ts <= w.orv || state.refs[root].hist[0].ts == w.id
      modifies this
      ensures Valid() && state.mutator.Idle? && Path(old(state), ls, state)
      ensures root in old(state).refs && root in state.refs && exists more :: entries == [root] + more + old(entries)
      ensures var h0, h1 := old(state).refs[root].hist, state.refs[root].hist;
        && |h0| > 0
        && h1 == if h0[0].ts <= w.orv then [Version(w.version, None)] + h0 else [Version(h0[0].ts, None)] + h0[1..]
      ensures ChainIn(old(state), root)
      ensures ChainAt(state, root) == if old(state).refs[root].hist[0].ts <= w.orv then [block] else Kept(old(state), root, w.orv)
    {
      hide Inv, Steps, Path, NoDuplicates, Members, Linked, CallOk, Dead, Kept, Spared, SameHists, ChainIn;
      ReleaseStarts(state, w, root);
      var gced, run := Gc(Release(w), root, w.orv, spare);
      ReleasedRef(state, w, root, w.orv);
      SameHist(old(state), state, root);
      ghost var more :| entries == more + old(entries);
      ls := Bury(w, root, block, old(state), run);
      assert entries == [root] + more + old(entries);
    }

    /** The end of a release, once its collection is over. */
    method Bury(w: TM.Tx, root: Addr, block: Addr, ghost s0: State, ghost before: seq<Label>)
      returns (ghost ls: seq<Label>)
      requires Valid() && state.mutator == Collected(Release(w), root, w.orv) && Path(s0, before, state) && block !in blocks
      requires root in state.refs && |state.refs[root].hist| > 0
      requires state.refs[root].hist[0].ts <= w.orv || state.refs[root].hist[0].ts == w.id
      modifies this
      ensures Valid() && state.mutator.Idle? && Path(s0, ls, state) && root in state.refs && entries == [root] + old(entries)
      ensures var h0, h1 := old(state).refs[root].hist, state.refs[root].hist;
        && h1 == (if h0[0].ts <= w.orv then [Version(w.version, None)] + h0 else [Version(h0[0].ts, None)] + h0[1..])
        && ChainAt(state, root) == if h0[0].ts <= w.orv then [block] else ChainAt(old(state), root)
    {
      hide Inv, Steps, Path, NoDuplicates, Members, Linked;
      ghost var ptr := FreshPtr(data.Keys);
      ghost var s := state;
      ReleaseFacts(s, w, root, w.orv);
      ghost var s' := Advance(s0, before, s, LFinish(block, ptr));
      ls := before + [LFinish(block, ptr)];
      ReleaseEffect(s, s', w, root, w.orv, block, ptr);
      var next := blocks[root].next;
      var c := if next.None? then root else next.value;
      HeadIs(s, root);
      var after := blocks[c].next;
      if blocks[c].ts <= w.orv {
        blocks := blocks[block := Block(w.version, None, if c != root then after else None)];
        blocks := blocks[root := blocks[root].(next := Some(block))];
      } else {
        data := data - {blocks[c].data.value};
        blocks := blocks[c := blocks[c].(data := None)];
      }
      AddEntry(entries, root);
      entries := [root] + entries;
      state := s';
    }

    /** Allocating a reference: an empty root and a first version of the writer. */
    method Alloc(w: TM.Tx, root: Addr, block: Addr, ptr: Addr, bytes: Bytes) returns (ghost ls: seq<Label>)
      requires Valid() && state.mutator.Idle? && Ready(state, LAlloc(w, root, block, ptr, bytes))
      modifies this
      ensures Valid() && state.mutator.Idle? && Path(old(state), ls, state)
      ensures root in state.refs && state.refs[root].hist == [Version(w.version, Some(bytes)), Version(0, None)]
    {
      hide Inv, Steps, Path, NoDuplicates, Members, Ready, Linked, VersionAt, ReleaseAllowed, SameHists;
      PathEmpty(state);
      WalkFree(state, w);
      AllocAllowed(state, w, root, block, ptr, bytes);
      ghost var s := Advance(state, [], state, LAlloc(w, root, block, ptr, bytes));
      AllocEffect(state, s, w, root, block, ptr, bytes);
      ls := [] + [LAlloc(w, root, block, ptr, bytes)];
      AllocBlocks(blocks, root, block, w.version, ptr);
      blocks := blocks[root := Block(0, None, None)];
      data := data[ptr := bytes];
      blocks := blocks[block := Block(w.version, Some(ptr), blocks[root].next)];
      blocks := blocks[root := blocks[root].(next := Some(block))];
      state := s;
    }

    /** A dereference by a reader: the chain walk, which changes no memory. */
    method ReaderPtr(t: TM.Tx, root: Addr) returns (p: Addr, ghost ls: seq<Label>)
      requires Valid() && Ready(state, LWalk(t, root))
      modifies this`state
      ensures Valid() && Path(old(state), ls, state)
      ensures p in data && root in old(state).refs && |old(state).refs[root].hist| > 0
      ensures VersionAt(old(state).refs[root].hist, t.version).value == Some(data[p])
      ensures exists c :: Held(t, root, c, p) in state.held
    {
      hide Inv, Steps, Path, NoDuplicates, Members, Ready, Linked, VersionAt, ReleaseAllowed;
      ghost var s0 := state;
      PathEmpty(s0);
      WalkFree(s0, t);
      ghost var s := Advance(s0, [], s0, LWalk(t, root));
      WalkEffect(s0, s, t, root);
      ls := [] + [LWalk(t, root)];
      WalkRef(s0, t, root);
      ReaderRef(s0, root);
      SameLinks(s0, s, root);
      state := s;
      var c := blocks[root].next;
      ghost var i := 0;
      ghost var chain := ChainAt(s, root);
      HeadIs(s, root);
      LinkedIn(s, root);
      while c.Some? && blocks[c.value].ts > t.version
        invariant Valid() && Path(s0, ls, state) && state.refs == s0.refs && Linked(state, root)
        invariant t in state.walks && state.walks[t] == Walk(root, At(c))
        invariant 0 <= i <= |chain| && ChainAt(state, root) == chain && (c.Some? ==> i < |chain| && chain[i] == c.value)
        invariant c.Some? ==> c.value in blocks
        decreases |chain| - i
      {
        WalkFree(state, t);
        s := Advance(s0, ls, state, LTest(t));
        TestEffect(state, s, t);
        ls := ls + [LTest(t)];
        WalkFree(s, t);
        ghost var q := Advance(s0, ls, s, LFollow(t));
        FollowEffect(s, q, t);
        ls := ls + [LFollow(t)];
        ChainWalk(state, root, i);
        SameLinks(state, q, root);
        LinkedIn(state, root);
        c := blocks[c.value].next;
        i := i + 1;
        state := q;
      }
      WalkFree(state, t);
      s := Advance(s0, ls, state, LTest(t));
      TestEffect(state, s, t);
      ls := ls + [LTest(t)];
      WalkFree(s, t);
      ghost var q := Advance(s0, ls, s, LLoad(t));
      LoadEffect(s, q, t);
      ls := ls + [LLoad(t)];
      var a := if c.Some? then c.value else root;
      p := blocks[a].data.value;
      assert Held(t, root, a, p) in q.held;
      state := q;
    }

    /**
     * The collection of a thread context's entries, first to last, at a bound `orv`. It gives back exactly the dead ones;
     * the others stay in the list.
     */
    method CollectEntries(orv: nat, spare: Addr) returns (allFreed: bool)
      requires Valid() && state.mutator.Idle? && TM.SafeBound(state.mgr, orv) && spare !in data
      modifies this
      ensures Valid() && state.mutator.Idle?
      ensures SameHists(old(state), state)
      ensures forall a :: a in old(entries) ==> (a in entries <==> a in blocks) && (a in blocks <==> !Dead(old(state), a, orv))
      ensures allFreed <==> forall a :: a in old(entries) ==> a !in blocks
    {
      hide Inv, Steps, Path, NoDuplicates, Members, SameHists, InMemory, TM.SafeBound, Dead, Visited, Pending, AllDead;
      SameHistsRefl(state);
      allFreed := true;
      var left: nat := |entries|;
      ghost var first, all := state, entries;
      NoneVisited(first, all, orv, blocks);
      while left > 0
        invariant Valid() && state.mutator.Idle? && TM.SafeBound(state.mgr, orv) && spare !in data
        invariant left <= |entries| && left <= |all|
        invariant entries[|entries| - left..] == all[|all| - left..]
        invariant SameHists(first, state)
        invariant Visited(first, all, |all| - left, orv, blocks, entries) && Pending(first, state, all, |all| - left, orv)
        invariant allFreed <==> AllDead(first, all, |all| - left, orv)
        decreases left
      {
        OneMoreDead(first, state, all, |all| - left, orv);
        var gced := CollectEntry(orv, spare, left, first, all);
        allFreed := allFreed && gced;
        left := left - 1;
      }
      AllVisited(first, all, orv, blocks, entries) by { EntriesInUse(); }
    }

    /** One entry: a collection of its reference, and its removal from the list when the reference is gone. */
    method CollectEntry(orv: nat, spare: Addr, left: nat, ghost first: State, ghost all: seq<Addr>) returns (gced: bool)
      requires Valid() && state.mutator.Idle? && TM.SafeBound(state.mgr, orv) && spare !in data
      requires 0 < left <= |entries| && left <= |all| && entries[|entries| - left..] == all[|all| - left..]
      requires SameHists(first, state) && NoDuplicates(all)
      requires Visited(first, all, |all| - left, orv, blocks, entries) && Pending(first, state, all, |all| - left, orv)
      modifies this
      ensures Valid() && state.mutator.Idle? && TM.SafeBound(state.mgr, orv) && spare !in data
      ensures left - 1 <= |entries| && entries[|entries| - (left - 1)..] == all[|all| - (left - 1)..]
      ensures SameHists(first, state) && (gced <==> Dead(old(state), all[|all| - left], orv))
      ensures Visited(first, all, |all| - left + 1, orv, blocks, entries) && Pending(first, state, all, |all| - left + 1, orv)
    {
      hide Inv, Steps, Path, NoDuplicates, Members, SameHists, TM.SafeBound, Dead, Spared, Kept, Visited, Pending;
      var at := |entries| - left;
      var a := entries[at];
      ghost var es, wasBlocks := entries, blocks;
      EntryReady(state, entries, a, orv);
      ghost var before := state;
      var freed, _ := Gc(Collect, a, orv, spare);
      SparedDeaths(before, state, a, es, orv);
      ghost var more :| entries == more + es;
      SameHistsTrans(first, before, state);
      LeftShrinks(all, es, more, entries, left);
      gced := freed;
      if gced {
        var pos := |entries| - left;
        RemoveEntry(entries, pos);
        OthersStay(all, es, more, entries, left);
        assert (entries[..pos] + entries[pos + 1..])[pos..] == entries[pos + 1..];
        entries := entries[..pos] + entries[pos + 1..];
      }
      VisitStep(first, before, state, all, |all| - left, orv, wasBlocks, es, blocks, entries) by { InList(es, all, left); }
    }

    lemma EntriesInUse()
      requires Valid()
      ensures forall a :: a in entries ==> a in blocks
    {
      forall a | a in entries ensures a in blocks { assert a in Members(entries); }
    }
  }

  /** Collecting one entry decides about no other. */
  lemma SparedDeaths(s: State, s': State, r: Addr, entries: seq<Addr>, orv: nat)
    requires Inv(s) && Spared(s, s', r) && SameHists(s, s') && Members(entries) == s.garbage
    ensures forall a :: a in entries && a != r ==> (Dead(s', a, orv) <==> Dead(s, a, orv))
  {
    hide RefsOk, DataOk, DoomedOk, ReadersOk, MutatorOk, TM.Inv, SeenOk;
    forall a | a in entries && a != r ensures Dead(s', a, orv) <==> Dead(s, a, orv) {
      assert a in Members(entries);
      if a !in s.refs { assert RoleOk(s, a); }
    }
  }

  // ---- how far a pass over the garbage list has come

  /** The first `n` entries are given back if they were dead, else still in the list. */
  ghost predicate Visited(first: State, all: seq<Addr>, n: nat, orv: nat, blocks: map<Addr, Block>, entries: seq<Addr>) {
    forall i :: 0 <= i < n && i < |all| ==> if Dead(first, all[i], orv) then all[i] !in blocks else all[i] in entries
  }

  /** The entries from `n` on are as dead or alive as at the start. */
  ghost predicate Pending(first: State, s: State, all: seq<Addr>, n: nat, orv: nat) {
    forall i :: n <= i < |all| ==> (Dead(s, all[i], orv) <==> Dead(first, all[i], orv))
  }

  ghost predicate AllDead(first: State, all: seq<Addr>, n: nat, orv: nat) {
    forall i :: 0 <= i < n && i < |all| ==> Dead(first, all[i], orv)
  }

  lemma NoneVisited(first: State, all: seq<Addr>, orv: nat, blocks: map<Addr, Block>)
    ensures Visited(first, all, 0, orv, blocks, all) && Pending(first, first, all, 0, orv) && AllDead(first, all, 0, orv)
  {
  }

  lemma OneMoreDead(first: State, s: State, all: seq<Addr>, n: nat, orv: nat)
    requires n < |all| && Pending(first, s, all, n, orv)
    ensures AllDead(first, all, n + 1, orv) <==> AllDead(first, all, n, orv) && Dead(s, all[n], orv)
  {
    hide Dead;
  }

  lemma VisitStep(first: State, was: State, s: State, all: seq<Addr>, n: nat, orv: nat, wasBlocks: map<Addr, Block>,
                  wasEntries: seq<Addr>, blocks: map<Addr, Block>, entries: seq<Addr>)
    requires NoDuplicates(all) && n < |all| && Visited(first, all, n, orv, wasBlocks, wasEntries) && Pending(first, was, all, n, orv)
    requires forall i :: n <= i < |all| ==> all[i] in wasEntries
    requires forall a :: a in wasEntries && a != all[n] ==> (Dead(s, a, orv) <==> Dead(was, a, orv))
    requires forall i :: 0 <= i < n && all[i] in wasEntries ==> all[i] in entries
    requires blocks.Keys <= wasBlocks.Keys && if Dead(was, all[n], orv) then all[n] !in blocks else all[n] in entries
    ensures Visited(first, all, n + 1, orv, blocks, entries) && Pending(first, s, all, n + 1, orv)
  {
    hide Dead, NoDuplicates;
    OtherEntries(all, n);
  }

  lemma AllVisited(first: State, all: seq<Addr>, orv: nat, blocks: map<Addr, Block>, entries: seq<Addr>)
    requires Visited(first, all, |all|, orv, blocks, entries) && forall a :: a in entries ==> a in blocks
    ensures forall a :: a in all ==> (a in entries <==> a in blocks) && (a in blocks <==> !Dead(first, a, orv))
    ensures AllDead(first, all, |all|, orv) <==> forall a :: a in all ==> a !in blocks
  {
    hide Dead;
  }

  lemma OtherEntries(all: seq<Addr>, at: nat)
    requires NoDuplicates(all) && at < |all|
    ensures forall i :: 0 <= i < |all| && i != at ==> all[i] != all[at]
  {
  }

  lemma InList(entries: seq<Addr>, all: seq<Addr>, left: nat)
    requires left <= |entries| && left <= |all| && entries[|entries| - left..] == all[|all| - left..]
    ensures forall i :: |all| - left <= i < |all| ==> all[i] in entries
  {
    forall i | |all| - left <= i < |all| ensures all[i] in entries {
      assert all[|all| - left..][i - (|all| - left)] == entries[|entries| - left..][i - (|all| - left)];
    }
  }

  lemma SameHistsRefl(s: State)
    ensures SameHists(s, s)
  {
  }

  /** The entry at the place of `left` is the only one that a removal there takes out of the list. */
  lemma OthersStay(first: seq<Addr>, es: seq<Addr>, more: seq<Addr>, entries: seq<Addr>, left: nat)
    requires 0 < left <= |es| && left <= |first| && entries == more + es && NoDuplicates(first) && left <= |entries|
    requires entries[|entries| - left] == first[|first| - left]
    ensures var pos := |entries| - left;
            forall i :: 0 <= i < |first| - left && first[i] in es ==> first[i] in entries[..pos] + entries[pos + 1..]
  {
    var pos := |entries| - left;
    forall i | 0 <= i < |first| - left && first[i] in es ensures first[i] in entries[..pos] + entries[pos + 1..] {
      var j :| 0 <= j < |es| && es[j] == first[i];
      assert entries[|more| + j] == first[i] && first[i] != entries[pos];
      StaysIn(entries, pos, |more| + j);
    }
  }

  lemma StaysIn(xs: seq<Addr>, pos: nat, j: nat)
    requires pos < |xs| && j < |xs| && j != pos
    ensures xs[j] in xs[..pos] + xs[pos + 1..]
  {
    var ys := xs[..pos] + xs[pos + 1..];
    assert ys[if j < pos then j else j - 1] == xs[j];
  }

  /** The entries still to look at keep their places at the end, whatever was added in front. */
  lemma LeftShrinks(first: seq<Addr>, es: seq<Addr>, more: seq<Addr>, entries: seq<Addr>, left: nat)
    requires 0 < left <= |es| && left <= |first| && es[|es| - left..] == first[|first| - left..] && entries == more + es
    ensures left <= |entries| && entries[|entries| - left] == es[|es| - left] == first[|first| - left]
    ensures entries[|entries| - left + 1..] == first[|first| - left + 1..]
  {
    var a, b := es[|es| - left..], first[|first| - left..];
    assert a[0] == b[0] && a[1..] == b[1..];
    assert a[1..] == es[|es| - left + 1..] && b[1..] == first[|first| - left + 1..];
    assert entries[|entries| - left + 1..] == es[|es| - left + 1..];
  }

  lemma AddEntry(xs: seq<Addr>, y: Addr)
    requires NoDuplicates(xs) && y !in Members(xs)
    ensures NoDuplicates([y] + xs) && Members([y] + xs) == Members(xs) + {y}
  {
    forall i, j | 0 <= i < j < |xs| + 1 ensures ([y] + xs)[i] != ([y] + xs)[j] {
      assert ([y] + xs)[j] == xs[j - 1] && xs[j - 1] in Members(xs);
    }
  }

  ghost function FreshPtr(taken: set<Addr>): (p: Addr)
    ensures p !in taken
  {
    FreshExists(taken);
    var p :| p !in taken; p
  }

  lemma FreshExists(taken: set<Addr>)
    ensures exists p :: p !in taken
  {
    var n := Above(taken);
    assert Addr(n) !in taken;
  }

  lemma {:induction false} Above(taken: set<Addr>) returns (n: nat)
    ensures forall p :: p in taken ==> p.id < n
  {
    n := 0;
    if taken != {} {
      var q :| q in taken;
      var m := Above(taken - {q});
      n := if m > q.id then m else q.id + 1;
    }
  }

  lemma SameHistsTrans(a: State, b: State, c: State)
    requires SameHists(a, b) && SameHists(b, c)
    ensures SameHists(a, c) && c.mgr == b.mgr
  {
  }

  lemma HeadIs(s: State, r: Addr)
    requires Linked(s, r)
    ensures r in s.blocks && s.blocks[r].next == HeadOf(ChainAt(s, r))
  {
  }

  lemma ReleaseStarts(s: State, w: TM.Tx, r: Addr)
    requires CallOk(s, Release(w), r, w.orv)
    ensures r in s.refs && |s.refs[r].hist| > 0
  {
  }

  lemma AllocBlocks(blocks: map<Addr, Block>, root: Addr, block: Addr, version: nat, ptr: Addr)
    requires root != block
    ensures var b1 := blocks[root := Block(0, None, None)];
      var b2 := b1[block := Block(version, Some(ptr), b1[root].next)];
      b2[root := b2[root].(next := Some(block))] == blocks[root := Block(0, None, Some(block))][block := Block(version, Some(ptr), None)]
  {
  }

  lemma AllocAllowed(s: State, w: TM.Tx, r: Addr, block: Addr, ptr: Addr, bytes: Bytes)
    ensures ReleaseAllowed(s, LAlloc(w, r, block, ptr, bytes))
  {
  }

  lemma WalkRef(s: State, t: TM.Tx, r: Addr)
    requires Ready(s, LWalk(t, r))
    ensures r in s.refs && |s.refs[r].hist| > 0
  {
  }

  lemma EntryReady(s: State, entries: seq<Addr>, a: Addr, orv: nat)
    requires a in entries && Members(entries) == s.garbage && TM.SafeBound(s.mgr, orv)
    ensures CallOk(s, Collect, a, orv)
  {
  }

  lemma RemoveEntry(xs: seq<Addr>, i: nat)
    requires NoDuplicates(xs) && i < |xs|
    ensures var ys := xs[..i] + xs[i + 1..]; NoDuplicates(ys) && Members(ys) == Members(xs) - {xs[i]}
  {
    var ys := xs[..i] + xs[i + 1..];
    forall j | 0 <= j < |ys| ensures ys[j] == xs[if j < i then j else j + 1] {}
    forall x | x in xs && x != xs[i] ensures x in ys {
      var j :| 0 <= j < |xs| && xs[j] == x;
      assert ys[if j < i then j else j - 1] == x;
    }
  }
}
