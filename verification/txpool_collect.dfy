/** What a collection leaves of a reference, and what it gives back. */
module TxPoolCollect {
  import opened Options
  import TM = TxManager
  import opened TxPoolState
  import opened TxPoolSteps
  import opened TxPoolInvariant
  import opened TxPoolFrame
  import opened TxPoolLocal
  import opened TxPoolReaders
  import opened TxPoolGc
  import opened TxPoolConsolidate
  import opened TxPoolWriter
  import opened TxPoolTheorems

  ghost predicate ChainIn(s: State, r: Addr) {
    forall j :: 0 <= j < |ChainAt(s, r)| ==> ChainAt(s, r)[j] in s.blocks
  }

  /** The chain after a collection: nothing when its newest version is at most `orv`, else it is cut behind the first one that is. */
  ghost function Kept(s: State, r: Addr, orv: nat): seq<Addr>
    requires ChainIn(s, r)
  {
    var chain := ChainAt(s, r);
    var k := CutFrom(s, chain, orv, 0);
    if k == |chain| then chain else if k == 0 then [] else chain[..k + 1]
  }

  /**
   * The entry can be given back: its newest version is a tombstone older than everything running. For a block that a
   * consolidation has emptied the block itself tells.
   */
  ghost predicate Dead(s: State, r: Addr, orv: nat) {
    if r in s.refs then |s.refs[r].hist| > 0 && s.refs[r].hist[0].value.None? && s.refs[r].hist[0].ts < orv
    else r in s.blocks && s.blocks[r].data.None? && s.blocks[r].ts < orv
  }

  /** At the end of a collection the test on the root's fields gives back exactly the entries that are dead. */
  lemma ReclaimExact(s: State)
    requires Inv(s) && s.mutator.Trimmed?
    ensures s.mutator.root in s.blocks
    ensures CanReclaim(s, s.mutator.root, s.mutator.orv) <==> Dead(s, s.mutator.root, s.mutator.orv)
  {
    hide RefsOk, DataOk, DoomedOk, ReadersOk, TM.Inv, SeenOk, Faithful, HistOk, TombOk;
    var r, orv := s.mutator.root, s.mutator.orv;
    assert RoleOk(s, r);
    if r in s.refs {
      RefInvOf(s, r);
      NewestSource(s, r);
      HeadPositive(s, r);
      if s.refs[r].chain != [] { assert s.blocks[r].next == Some(s.refs[r].chain[0]); }
    } else {
      TargetLinked(s);
    }
  }

  // ---- what a collection leaves alone

  /** Every reference but `r` is as it was, and so is every emptied block that waits in the garbage list. */
  ghost predicate Spared(s0: State, s: State, r: Addr) {
    && (forall q :: q in s0.refs && q != r ==> q in s.refs && s.refs[q] == s0.refs[q])
    && (forall q :: Waits(s0, q) && q != r ==> Waits(s, q) && s.blocks[q] == s0.blocks[q])
  }

  predicate Waits(s: State, q: Addr) {
    q in s.role && s.role[q].Zombie? && q in s.blocks
  }

  /** The step belongs to a collection of `r`. */
  predicate GcStep(s: State, l: Label, r: Addr) {
    && (l.LStart? || l.LFreeOne? || l.LCopy? || l.LStamp? || l.LUnlink? || l.LSkip? || l.LReclaim?)
    && if l.LStart? then l.root == r else !s.mutator.Idle? && s.mutator.root == r
  }

  lemma SparedRefl(s: State, r: Addr)
    ensures Spared(s, s, r)
  {
  }

  lemma SparedTrans(a: State, b: State, c: State, r: Addr)
    requires Spared(a, b, r) && Spared(b, c, r)
    ensures Spared(a, c, r)
  {
    hide Waits;
  }

  lemma StepSpares(s0: State, s: State, l: Label, s': State, r: Addr)
    requires Spared(s0, s, r) && Inv(s) && Steps(s, l, s') && GcStep(s, l, r)
    ensures Spared(s0, s', r)
  {
    hide Inv, Steps, GcStep, Spared;
    OneSpares(s, l, s', r);
    SparedTrans(s0, s, s', r);
  }

  lemma OneSpares(s: State, l: Label, s': State, r: Addr)
    requires Inv(s) && Steps(s, l, s') && GcStep(s, l, r)
    ensures Spared(s, s', r)
  {
    hide Inv, Steps, Spared;
    match l {
      case LStart(op, _, orv) => StartSpares(s, op, r, orv, s');
      case LFreeOne => FreeSpares(s, s', r);
      case LCopy(spare) => CopySpares(s, spare, s', r);
      case LUnlink => UnlinkSpares(s, s', r);
      case LStamp => StampSpares(s, s', r);
      case LSkip => SkipSpares(s, s', r);
      case LReclaim => ReclaimSpares(s, s', r);
    }
  }

  lemma StartSpares(s: State, op: Op, r: Addr, orv: nat, s': State)
    requires Inv(s) && Steps(s, LStart(op, r, orv), s')
    ensures Spared(s, s', r)
  {
    hide RefsOk, DataOk, ReadersOk, TM.Inv, SeenOk, RefOk, Faithful, TombOk, CallOk, StartShape, MutatorOk, DoStart;
    StartDefined(s, op, r, orv);
    var k := StartLooks(s, op, r, orv);
    StartRest(s, s', op, r, orv, k);
    forall q | Waits(s, q) && q != r ensures Waits(s', q) && s'.blocks[q] == s.blocks[q] {
      StartWaits(s, s', op, r, orv, k, q);
    }
  }

  lemma StartRest(s: State, s': State, op: Op, r: Addr, orv: nat, k: nat)
    requires StartShape(s, s', op, r, orv, k, s'.doomed)
    ensures forall q :: q in s.refs && q != r ==> q in s'.refs && s'.refs[q] == s.refs[q]
  {
    hide CutShape;
  }

  lemma StartWaits(s: State, s': State, op: Op, r: Addr, orv: nat, k: nat, q: Addr)
    requires StartShape(s, s', op, r, orv, k, s'.doomed) && (r in s.refs ==> RefOk(s, r)) && Waits(s, q)
    ensures Waits(s', q) && s'.blocks[q] == s.blocks[q]
  {
    hide CutShape, RefOk;
    if q in s'.doomed { RestRole(s, s', op, r, orv, k, s'.doomed, q); }
    if q in ChainAt(s, r) {
      var i :| 0 <= i < |ChainAt(s, r)| && ChainAt(s, r)[i] == q;
      ChainRole(s, r, i);
    }
  }

  lemma FreeSpares(s: State, s': State, r: Addr)
    requires Inv(s) && Steps(s, LFreeOne, s')
    ensures Spared(s, s', r)
  {
    hide Inv, Steps, Spared;
    FreedOne(s, s');
    FreedIsDoomed(s);
    OthersWait(s, s', s.mutator.cursor.value, r);
  }

  lemma FreedIsDoomed(s: State)
    requires Inv(s) && s.mutator.Freeing? && s.mutator.cursor.Some?
    ensures s.mutator.cursor.value in s.role && s.role[s.mutator.cursor.value].Doomed?
  {
    hide PoolOk, DataOk, ReadersOk, TM.Inv, SeenOk, RefsOk, MutatorOk;
  }

  lemma FreedOne(s: State, s': State)
    requires Steps(s, LFreeOne, s')
    ensures s.mutator.Freeing? && s.mutator.cursor.Some?
    ensures var a := s.mutator.cursor.value; s'.refs == s.refs && s'.blocks == s.blocks - {a} && s'.role == s.role - {a}
  {
  }

  lemma OthersWait(s: State, s': State, a: Addr, r: Addr)
    requires a in s.role && s.role[a].Doomed? && s'.refs == s.refs && s'.blocks == s.blocks - {a} && s'.role == s.role - {a}
    ensures Spared(s, s', r)
  {
  }

  lemma CopySpares(s: State, spare: Addr, s': State, r: Addr)
    requires Steps(s, LCopy(spare), s') && s.mutator.root == r
    ensures Spared(s, s', r)
  {
    hide Steps;
    CopiedRoot(s, spare, s');
  }

  lemma CopiedRoot(s: State, spare: Addr, s': State)
    requires Steps(s, LCopy(spare), s')
    ensures s.mutator.Freeing? && s'.refs == s.refs && s'.role == s.role
    ensures forall q :: q in s.blocks && q != s.mutator.root ==> q in s'.blocks && s'.blocks[q] == s.blocks[q]
  {
    hide Linked, CanConsolidate, Readable;
  }

  lemma StampSpares(s: State, s': State, r: Addr)
    requires Steps(s, LStamp, s') && s.mutator.root == r
    ensures Spared(s, s', r)
  {
    hide Linked, CanConsolidate;
  }

  lemma UnlinkSpares(s: State, s': State, r: Addr)
    requires Steps(s, LUnlink, s') && s.mutator.root == r
    ensures Spared(s, s', r)
  {
    hide Linked;
  }

  lemma SkipSpares(s: State, s': State, r: Addr)
    requires Steps(s, LSkip, s')
    ensures Spared(s, s', r)
  {
    hide CanConsolidate;
  }

  lemma ReclaimSpares(s: State, s': State, r: Addr)
    requires Steps(s, LReclaim, s') && s.mutator.root == r
    ensures Spared(s, s', r)
  {
    hide CanReclaim;
  }

  // ---- the pointer handed to a writer

  /** A block with the running writer's version is the block of no pointer that a reader holds. */
  lemma ReadersElsewhere(s: State, w: TM.Tx, r: Addr, h: Held)
    requires Inv(s) && WriterTx(s, w) && r in s.refs && Newest(s, r, w.id) && h in s.held
    ensures h.block != ChainAt(s, r)[0]
  {
    hide DataOk, DoomedOk, MutatorOk, TM.Inv, SeenOk, Faithful, TombOk, HistOk, Linked, Decreasing;
    var b := ChainAt(s, r)[0];
    assert HeldOk(s, h);
    RefInvOf(s, r);
    ChainRole(s, r, 0);
    if h.block == b {
      RefInvOf(s, h.root);
      WriterFacts(s, w);
      ZeroBound(s);
      ReaderBound(s, h.tx, 0);
      assert s.role[b] != Zombie;
      var i: nat :| StopsAt(s, h.root, h.tx.version, i) && b == Source(s, h.root, i);
    }
  }

  /** The pointer a write dereference hands out: stores through it are the writer's, and no reader holds it. */
  lemma WritePointer(s: State, w: TM.Tx, r: Addr, p: Addr)
    requires Inv(s) && s.mutator.Idle? && WriterTx(s, w) && r in s.refs && Newest(s, r, w.id)
    requires |s.refs[r].hist| > 0 && s.refs[r].hist[0].value.Some?
    requires s.blocks[ChainAt(s, r)[0]].data == Some(p)
    ensures forall bytes :: Ready(s, LStore(w, r, bytes))
    ensures forall h :: h in s.held ==> h.ptr != p
  {
    hide RefsOk, PoolOk, DataOk, DoomedOk, MutatorOk, TM.Inv, SeenOk;
    forall h | h in s.held ensures h.ptr != p {
      ReadersElsewhere(s, w, r, h);
      assert HeldOk(s, h);
      if h.ptr == p { OneOwner(s, h.block, ChainAt(s, r)[0]); }
    }
  }

  lemma OneOwner(s: State, a: Addr, b: Addr)
    requires DataOk(s) && a in s.blocks && b in s.blocks && s.blocks[a].data.Some? && s.blocks[a].data == s.blocks[b].data
    ensures a == b
  {
  }

  // ---- how much is left of one reference

  /** Of the versions in chain and root at most one is at most `orv`. */
  ghost predicate OneOld(s: State, r: Addr, orv: nat)
    requires r in s.blocks && ChainIn(s, r)
  {
    forall i: nat, j: nat :: i < j <= |ChainAt(s, r)| ==> s.blocks[Source(s, r, i)].ts > orv || s.blocks[Source(s, r, j)].ts > orv
  }

  /** The newest version of the chain is above `orv`, and the oldest is not. */
  ghost predicate Splits(s: State, r: Addr, orv: nat)
    requires ChainIn(s, r)
  {
    var chain := ChainAt(s, r);
    chain != [] && s.blocks[chain[0]].ts > orv && s.blocks[chain[|chain| - 1]].ts <= orv
  }

  lemma RootIsOldest(s: State, r: Addr)
    requires Inv(s) && r in s.refs && !Consolidating(s, r)
    ensures r in s.blocks && ChainIn(s, r) && Decreasing(s, ChainAt(s, r))
    ensures ChainAt(s, r) != [] ==> s.blocks[r].ts < s.blocks[ChainAt(s, r)[|ChainAt(s, r)| - 1]].ts
  {
    hide PoolOk, DataOk, DoomedOk, ReadersOk, MutatorOk, TM.Inv, SeenOk, Faithful, HistOk, RefsOk, Linked;
    RefInvOf(s, r);
  }

  lemma OldestDecides(s: State, r: Addr, orv: nat)
    requires r in s.blocks && ChainIn(s, r) && Decreasing(s, ChainAt(s, r))
    requires ChainAt(s, r) != [] ==> s.blocks[r].ts < s.blocks[ChainAt(s, r)[|ChainAt(s, r)| - 1]].ts
    ensures OneOld(s, r, orv) <==> (ChainAt(s, r) == [] || s.blocks[ChainAt(s, r)[|ChainAt(s, r)| - 1]].ts > orv)
  {
    var chain, n := ChainAt(s, r), |ChainAt(s, r)|;
    if chain != [] && s.blocks[chain[n - 1]].ts <= orv {
      assert Source(s, r, n - 1) == chain[n - 1] && Source(s, r, n) == r;
    }
  }

  lemma OldestKept(s: State, r: Addr, orv: nat)
    requires ChainIn(s, r) && Decreasing(s, ChainAt(s, r))
    ensures var kept := Kept(s, r, orv);
            && |kept| <= |ChainAt(s, r)| && kept == ChainAt(s, r)[..|kept|]
            && (Splits(s, r, orv) <==> kept != [] && s.blocks[ChainAt(s, r)[|kept| - 1]].ts <= orv)
  {
    hide CutFrom;
    var chain, k := ChainAt(s, r), CutFrom(s, ChainAt(s, r), orv, 0);
    if 0 < k < |chain| { assert k < |chain| - 1 ==> s.blocks[chain[k]].ts > s.blocks[chain[|chain| - 1]].ts; }
  }

  /** A collection leaves two old versions, one in the chain and the root's, exactly when the chain splits at the bound. */
  lemma OneOldExact(s: State, s': State, r: Addr, orv: nat)
    requires ChainIn(s, r) && Decreasing(s, ChainAt(s, r)) && r !in ChainAt(s, r)
    requires Inv(s') && r in s'.refs && !Consolidating(s', r) && s'.refs[r].chain == Kept(s, r, orv)
    requires forall a :: a in s'.blocks && a != r ==> a in s.blocks && s'.blocks[a].ts == s.blocks[a].ts
    ensures r in s'.blocks && ChainIn(s', r)
    ensures OneOld(s', r, orv) <==> !Splits(s, r, orv)
  {
    hide Inv, Decreasing, OneOld, Splits, Kept, Consolidating;
    RootIsOldest(s', r);
    OldestDecides(s', r, orv);
    OldestKept(s, r, orv);
    var kept := ChainAt(s', r);
    if kept != [] { assert kept[|kept| - 1] == ChainAt(s, r)[|kept| - 1] && kept[|kept| - 1] in ChainAt(s, r); }
  }
}
