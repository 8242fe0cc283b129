/** Consolidation of the only version into the root, store by store, and reclaiming roots. */
module TxPoolConsolidate {
  import opened Options
  import TM = TxManager
  import opened TxPoolState
  import opened TxPoolSteps
  import opened TxPoolInvariant
  import opened TxPoolFrame
  import opened TxPoolLocal
  import opened TxPoolReaders
  import opened TxPoolGc

  // ---- the only version stays in view

  lemma SingleGood(s: State, s': State, r: Addr, y: Addr, v: nat, c: Addr)
    requires r in s.refs && r in s'.refs && s.refs[r].chain == [y] && s'.refs[r].chain == [y]
    requires s'.refs[r].hist == s.refs[r].hist && |s.refs[r].hist| > 0 && Live(s.refs[r].hist, v)
    requires y in s.blocks && y in s'.blocks && s'.blocks[y] == s.blocks[y] && s.blocks[y].ts <= v
    requires SameZombies(s, s') && Good(s, r, v, c)
    ensures Good(s', r, v, c) && c in s.blocks && c in s'.blocks && s'.blocks[c].data == s.blocks[c].data
  {
    if i: nat :| StopsAt(s, r, v, i) && c == Source(s, r, i) {
      assert s.refs[r].chain[0] == y;
      assert i == 0 && c == y;
      assert StopsAt(s', r, v, 0);
    } else {
      KeepParked(s, s', r, v, c);
    }
  }

  lemma SingleCursor(s: State, s': State, r: Addr, y: Addr, v: nat, c: Cursor)
    requires r in s.refs && r in s'.refs && s.refs[r].chain == [y] && s'.refs[r].chain == [y]
    requires s'.refs[r].hist == s.refs[r].hist && |s.refs[r].hist| > 0 && Live(s.refs[r].hist, v)
    requires y in s.blocks && y in s'.blocks && s'.blocks[y] == s.blocks[y] && s.blocks[y].ts <= v
    requires SameZombies(s, s') && CursorOk(s, r, v, c)
    ensures CursorOk(s', r, v, c)
  {
    assert s.refs[r].chain[0] == y;
    match c {
      case At(None) => assert false;
      case At(Some(a)) =>
        if i :| 0 <= i < |s.refs[r].chain| && s.refs[r].chain[i] == a && Passed(s, r, v, i - 1) {
          assert s'.refs[r].chain[0] == a && Passed(s', r, v, -1);
        } else {
          KeepParked(s, s', r, v, a);
        }
      case TooNew(a) => assert false;
      case Chosen(b) => SingleGood(s, s', r, y, v, b);
    }
  }

  lemma SingleReaders(s: State, s': State, r: Addr, y: Addr, orv: nat)
    requires TM.Inv(s.mgr) && TM.SafeBound(s.mgr, orv) && s'.mgr == s.mgr
    requires r in s.refs && r in s'.refs && s.refs[r].chain == [y] && s'.refs[r].chain == [y]
    requires s'.refs[r].hist == s.refs[r].hist
    requires y in s.blocks && y in s'.blocks && s'.blocks[y] == s.blocks[y] && s.blocks[y].ts <= orv
    requires SameZombies(s, s')
    ensures ReadersOfKept(s, s', r)
  {
    hide Good, CursorOk, TM.Inv, SameZombies;
    forall t | LiveFor(s, t, r)
      ensures LiveFor(s', t, r)
      ensures forall c :: CursorOk(s, r, t.version, c) ==> CursorOk(s', r, t.version, c)
      ensures forall c :: Good(s, r, t.version, c) && c in s.blocks ==>
                Good(s', r, t.version, c) && c in s'.blocks && s'.blocks[c].data == s.blocks[c].data
    {
      ReaderBound(s, t, orv);
      forall c | Good(s, r, t.version, c)
        ensures Good(s', r, t.version, c) && c in s.blocks && c in s'.blocks && s'.blocks[c].data == s.blocks[c].data
      {
        SingleGood(s, s', r, y, t.version, c);
      }
      forall c | CursorOk(s, r, t.version, c) ensures CursorOk(s', r, t.version, c) {
        SingleCursor(s, s', r, y, t.version, c);
      }
    }
  }

  /** The root's fields may change freely while its only version is at most every reader's. */
  ghost predicate RootOnly(s: State, s': State, r: Addr, y: Addr) {
    && r in s.refs && s'.refs == s.refs && s.refs[r].chain == [y] && y != r
    && r in s.blocks && r in s'.blocks && s'.blocks[r].next == s.blocks[r].next
    && (s'.blocks[r].ts == s.blocks[r].ts || s'.blocks[r].ts <= s.refs[r].floor)
    && s'.blocks.Keys == s.blocks.Keys && s'.role == s.role && s'.garbage == s.garbage
    && s'.mgr == s.mgr && s'.committed == s.committed && s'.seen == s.seen
    && s'.walks == s.walks && s'.held == s.held && s'.doomed == s.doomed
    && (forall a :: a in s.blocks && a != r ==> SameBlock(s, s', a))
    && y in s.blocks && s.blocks[y].ts <= s.refs[r].floor
  }

  lemma RootOnlyFaithful(s: State, s': State, r: Addr, y: Addr)
    requires RootOnly(s, s', r, y) && Faithful(s, r)
    ensures Faithful(s', r)
  {
    forall v: nat, i: nat | s.refs[r].floor <= v ensures FaithfulAt(s', r, v, i) {
      assert s.refs[r].chain[0] == y && s'.blocks[y].ts <= v;
      if StopsAt(s', r, v, i) {
        assert i == 0 && StopsAt(s, r, v, 0) && FaithfulAt(s, r, v, 0);
      }
    }
  }

  lemma RootOnlyRef(s: State, s': State, r: Addr, y: Addr)
    requires RootOnly(s, s', r, y) && RefInv(s, r) && Consolidating(s', r)
    ensures RefInv(s', r)
  {
    RootOnlyFaithful(s, s', r, y);
    hide Faithful;
    assert s.refs[r].chain[0] == y;
    SameWritten(s, s');
    assert Linked(s', r);
  }

  lemma RootOnlyPool(s: State, s': State, r: Addr, y: Addr)
    requires RootOnly(s, s', r, y) && PoolOk(s) && r in s.role && s.role[r] == RootOf
    ensures PoolOk(s')
  {
    forall a | a in s'.role ensures RoleOk(s', a) { assert RoleOk(s, a); }
  }

  lemma RootOnlyKeeps(s: State, s': State, r: Addr, y: Addr)
    requires TM.Inv(s.mgr) && SeenOk(s) && RefsOk(s) && ReadersOk(s) && PoolOk(s)
    requires RootOnly(s, s', r, y) && Consolidating(s', r) && TM.SafeBound(s.mgr, s.refs[r].floor)
    requires forall q :: q != r ==> !Consolidating(s, q)
    requires r in s.role && s.role[r] == RootOf
    ensures TM.Inv(s'.mgr) && SeenOk(s') && RefsOk(s') && ReadersOk(s') && PoolOk(s')
  {
    hide TM.Inv, SeenOk, RefsOk, ReadersOk, PoolOk, ReadersOfKept, RefInv;
    RefInvOf(s, r);
    RootOnlyRef(s, s', r, y);
    RootOnlyPool(s, s', r, y);
    SingleReaders(s, s', r, y, s.refs[r].floor);
    LocalStep(s, s', r);
  }

  /** What is known while a consolidation of `r` is under way. */
  lemma Single(s: State, r: Addr, orv: nat) returns (y: Addr)
    requires PoolOk(s) && RefsOk(s) && MutatorOk(s) && !s.mutator.Idle? && r == s.mutator.root && orv == s.mutator.orv
    requires CanConsolidate(s, r, orv)
    ensures r in s.refs && s.refs[r].chain == [y] && y in s.blocks && y != r && s.blocks[y].ts <= orv
    ensures orv <= s.refs[r].floor && TM.SafeBound(s.mgr, s.refs[r].floor)
    ensures r in s.role && s.role[r] == RootOf && y in s.role && s.role[y] == ChainOf(r) && r in s.blocks
    ensures Linked(s, r)
  {
    hide PoolOk, RefOk, Linked, TM.SafeBound, RefsOk;
    SingleCall(s, r, orv);
    RefInvOf(s, r);
    hide MutatorOk;
    SingleRef(s, r);
    y := s.refs[r].chain[0];
  }

  lemma SingleCall(s: State, r: Addr, orv: nat)
    requires MutatorOk(s) && !s.mutator.Idle? && r == s.mutator.root && orv == s.mutator.orv
    requires CanConsolidate(s, r, orv)
    ensures r in s.refs && orv <= s.refs[r].floor
  {
    hide TM.SafeBound, WriterTx, CopyDone, CutDone, NewestAbove;
  }

  lemma SingleRef(s: State, r: Addr)
    requires r in s.refs && RefInv(s, r)
    ensures Linked(s, r) && r in s.role && s.role[r] == RootOf && TM.SafeBound(s.mgr, s.refs[r].floor) && r in s.blocks
    ensures forall a :: a in s.refs[r].chain ==> a in s.role && s.role[a] == ChainOf(r) && a in s.blocks
  {
    hide Faithful, TombOk, HistOk, Decreasing, TM.SafeBound;
    forall a | a in s.refs[r].chain ensures a in s.role && s.role[a] == ChainOf(r) && a in s.blocks {
      var i :| 0 <= i < |s.refs[r].chain| && s.refs[r].chain[i] == a;
    }
  }

  // ---- the data store

  lemma CopyData(s: State, r: Addr, y: Addr, orv: nat, spare: Addr)
    requires DataOk(s) && s.mutator.Freeing? && s.mutator.root == r && s.mutator.orv == orv
    requires CanConsolidate(s, r, orv) && r in s.refs && Readable(s, r) && Readable(s, y) && s.refs[r].chain == [y]
    requires spare !in s.data && y != r && orv <= s.refs[r].floor
    ensures DataOk(DoCopy(s, spare))
  {
    hide CanConsolidate;
    assert s.refs[r].chain[0] == y;
    var s' := DoCopy(s, spare);
    forall a | a in s'.blocks && s'.blocks[a].data.Some?
      ensures var p := s'.blocks[a].data.value; p in s'.data && p in s'.owner && s'.owner[p] == a
    {
      if a != r { assert a in s.blocks && s'.blocks[a] == s.blocks[a] && s.owner[s.blocks[a].data.value] == a; }
    }
  }

  lemma CopyBlocks(s: State, r: Addr, y: Addr, orv: nat, spare: Addr)
    requires DataOk(s) && s.mutator.Freeing? && s.mutator.root == r && s.mutator.orv == orv
    requires CanConsolidate(s, r, orv) && r in s.refs && Readable(s, r) && Readable(s, y) && s.refs[r].chain == [y]
    requires spare !in s.data && y != r && orv <= s.refs[r].floor
    ensures var s' := DoCopy(s, spare); forall a :: a in s.blocks && a != r ==> SameBlock(s, s', a)
  {
    hide CanConsolidate;
    assert s.refs[r].chain[0] == y;
  }

  lemma CopyRoot(s: State, r: Addr, y: Addr, orv: nat, spare: Addr)
    requires DataOk(s) && s.mutator.Freeing? && s.mutator.root == r && s.mutator.orv == orv
    requires CanConsolidate(s, r, orv) && r in s.refs && Readable(s, r) && Readable(s, y) && s.refs[r].chain == [y]
    requires spare !in s.data && y != r && orv <= s.refs[r].floor
    ensures var s' := DoCopy(s, spare);
      && Readable(s', r) && Content(s', r).value == Content(s, y).value && s'.blocks[r].ts == s.blocks[r].ts
      && Consolidating(s', r)
  {
    assert s.refs[r].chain[0] == y;
  }

  lemma CopyLooks(s: State, r: Addr, y: Addr, orv: nat, spare: Addr)
    requires DataOk(s) && s.mutator.Freeing? && s.mutator.root == r && s.mutator.orv == orv
    requires CanConsolidate(s, r, orv) && r in s.refs && Readable(s, r) && Readable(s, y) && s.refs[r].chain == [y]
    requires spare !in s.data && y != r && orv <= s.refs[r].floor
    ensures RootOnly(s, DoCopy(s, spare), r, y)
  {
    CopyBlocks(s, r, y, orv, spare);
    hide SameBlock, DataOk;
    assert s.refs[r].chain[0] == y;
  }

  lemma CopyMutator(s: State, s': State, r: Addr, y: Addr, op: Op, orv: nat)
    requires RootOnly(s, s', r, y) && CallInProgress(s, op, r, orv) && s'.mutator == Copied(op, r, orv)
    requires CanConsolidate(s, r, orv) && Readable(s', r) && Readable(s', y) && Content(s', r).value == Content(s', y).value
    requires op.Release? ==> s.blocks[y].data.Some?
    ensures MutatorOk(s')
  {
    assert s.refs[r].chain[0] == y;
  }

  /** A version newer than all others is the live one. */
  lemma NewestValue(s: State, r: Addr)
    requires r in s.refs && RefOk(s, r) && Faithful(s, r) && s.refs[r].chain != []
    ensures Readable(s, s.refs[r].chain[0]) && Content(s, s.refs[r].chain[0]) == s.refs[r].hist[0]
  {
    hide Linked, HistOk;
    var R := s.refs[r];
    var v := R.floor + R.hist[0].ts + s.blocks[R.chain[0]].ts;
    assert StopsAt(s, r, v, 0);
    assert FaithfulAt(s, r, v, 0);
  }

  lemma NewestRoot(s: State, r: Addr)
    requires r in s.refs && Faithful(s, r) && s.refs[r].chain == []
    ensures Readable(s, r) && Content(s, r) == s.refs[r].hist[0]
  {
    var v := s.refs[r].floor + s.refs[r].hist[0].ts;
    assert StopsAt(s, r, v, 0);
    assert FaithfulAt(s, r, v, 0);
  }

  lemma CopyDefined(s: State, spare: Addr)
    requires PoolOk(s) && DataOk(s) && RefsOk(s) && MutatorOk(s) && Ready(s, LCopy(spare))
    ensures Defined(s, LCopy(spare))
  {
    hide Faithful, HistOk, RefOk, Linked, MutatorOk, PoolOk;
    var y := Single(s, s.mutator.root, s.mutator.orv);
    assert s.refs[s.mutator.root].chain[0] == y;
    assert TombOk(s, s.mutator.root);
  }

  lemma CopySafe(s: State, spare: Addr)
    requires Inv(s) && Ready(s, LCopy(spare))
    ensures Defined(s, LCopy(spare)) && Inv(Apply(s, LCopy(spare)))
  {
    hide RefsOk, PoolOk, DataOk, DoomedOk, ReadersOk, TM.Inv, SeenOk, MutatorOk, DoCopy, Defined;
    CopyDefined(s, spare);
    CopyKeeps(s, spare);
    CopyIs(s, spare);
  }

  lemma CopyIs(s: State, spare: Addr)
    requires Ready(s, LCopy(spare)) && Defined(s, LCopy(spare))
    ensures s.mutator.root in s.refs && Readable(s, s.mutator.root) && Readable(s, s.refs[s.mutator.root].chain[0])
    ensures Apply(s, LCopy(spare)) == DoCopy(s, spare)
  {
  }

  lemma CopyKeeps(s: State, spare: Addr)
    requires Inv(s) && Ready(s, LCopy(spare)) && Defined(s, LCopy(spare))
    ensures Inv(Apply(s, LCopy(spare)))
  {
    hide RefsOk, PoolOk, DataOk, DoomedOk, ReadersOk, TM.Inv, SeenOk, DoCopy, Defined, MutatorOk, RootOnly, Linked;
    var op, r, orv := s.mutator.op, s.mutator.root, s.mutator.orv;
    var y := Single(s, r, orv);
    CopyIs(s, spare);
    var s' := DoCopy(s, spare);
    assert s.refs[r].chain[0] == y;
    CopyLooks(s, r, y, orv, spare);
    CopyData(s, r, y, orv, spare);
    CopyRoot(s, r, y, orv, spare);
    CopyMutatorIs(s, spare);
    RootOnlyKeeps(s, s', r, y);
    CopyCall(s, r, y);
    YContent(s, s', r, y);
    CopyMutator(s, s', r, y, op, orv);
    CopyNotDoomed(s, s', r, y);
  }

  lemma CopyMutatorIs(s: State, spare: Addr)
    requires Ready(s, LCopy(spare)) && Defined(s, LCopy(spare))
    requires s.mutator.root in s.refs && Readable(s, s.mutator.root) && Readable(s, s.refs[s.mutator.root].chain[0])
    ensures DoCopy(s, spare).mutator == Copied(s.mutator.op, s.mutator.root, s.mutator.orv)
  {
  }

  lemma YContent(s: State, s': State, r: Addr, y: Addr)
    requires RootOnly(s, s', r, y) && Readable(s, y)
    ensures Readable(s', y) && Content(s', y) == Content(s, y)
  {
  }

  lemma CopyNotDoomed(s: State, s': State, r: Addr, y: Addr)
    requires DoomedOk(s) && s.mutator.Freeing? && s.mutator.cursor.None? && RootOnly(s, s', r, y) && s'.mutator.Copied?
    ensures DoomedOk(s')
  {
  }

  lemma CopyCall(s: State, r: Addr, y: Addr)
    requires RefsOk(s) && MutatorOk(s) && s.mutator.Freeing? && s.mutator.root == r && r in s.refs && s.refs[r].chain == [y]
    ensures CallInProgress(s, s.mutator.op, r, s.mutator.orv)
    ensures s.mutator.op.Release? ==> y in s.blocks && s.blocks[y].data.Some?
  {
    hide TombOk;
    RefInvOf(s, r);
    NewestValue(s, r);
    assert s.refs[r].chain[0] == y;
  }

  // ---- the version store

  lemma StampLooks(s: State, r: Addr, y: Addr, orv: nat)
    requires s.mutator.Copied? && s.mutator.root == r && s.mutator.orv == orv && CanConsolidate(s, r, orv)
    requires r in s.refs && r in s.blocks && s.refs[r].chain == [y] && y != r && orv <= s.refs[r].floor && DataOk(s)
    ensures RootOnly(s, DoStamp(s), r, y) && Consolidating(DoStamp(s), r) && DataOk(DoStamp(s))
  {
    assert s.refs[r].chain[0] == y;
  }

  lemma StampMutator(s: State, s': State, r: Addr, y: Addr)
    requires s.mutator.Copied? && s.mutator.root == r && MutatorOk(s) && RootOnly(s, s', r, y)
    requires s'.mutator == Stamped(s.mutator.op, r, s.mutator.orv)
    requires s'.blocks[r] == s.blocks[r].(ts := s.blocks[y].ts) && s'.data == s.data
    ensures MutatorOk(s')
  {
    assert s.refs[r].chain[0] == y;
  }

  lemma CopyDoneHolds(s: State)
    requires MutatorOk(s) && (s.mutator.Copied? || s.mutator.Stamped?)
    ensures CanConsolidate(s, s.mutator.root, s.mutator.orv)
  {
  }

  lemma StampSafe(s: State)
    requires Inv(s) && Ready(s, LStamp)
    ensures Defined(s, LStamp) && Inv(Apply(s, LStamp))
  {
    hide RefsOk, PoolOk, DataOk, DoomedOk, ReadersOk, TM.Inv, SeenOk, MutatorOk, RootOnly, Linked;
    var r, orv := s.mutator.root, s.mutator.orv;
    CopyDoneHolds(s);
    var y := Single(s, r, orv);
    assert s.refs[r].chain[0] == y;
    var s' := DoStamp(s);
    StampLooks(s, r, y, orv);
    RootOnlyKeeps(s, s', r, y);
    StampMutator(s, s', r, y);
    StillNoneDoomed(s, s');
  }

  lemma StillNoneDoomed(s: State, s': State)
    requires DoomedOk(s) && !s.mutator.Freeing? && !s'.mutator.Freeing? && s'.doomed == s.doomed
    ensures DoomedOk(s')
  {
  }

  // ---- the unlinking store

  ghost predicate UnlinkShape(s: State, s': State, r: Addr, y: Addr) {
    && r in s.refs && s.refs[r].chain == [y] && y != r && r in s.blocks && y in s.blocks
    && s'.refs == s.refs[r := s.refs[r].(chain := [])]
    && s'.blocks == s.blocks[r := s.blocks[r].(next := None)]
    && s'.role == s.role[y := Zombie] && s'.garbage == s.garbage + {y}
    && s'.data == s.data && s'.owner == s.owner && s'.doomed == s.doomed
    && s'.mgr == s.mgr && s'.committed == s.committed && s'.seen == s.seen
    && s'.walks == s.walks && s'.held == s.held
    && Readable(s, r) && Readable(s, y) && Content(s, r) == Content(s, y)
    && s.blocks[y].ts <= s.refs[r].floor
  }

  lemma UnlinkRef(s: State, s': State, r: Addr, y: Addr)
    requires UnlinkShape(s, s', r, y) && RefInv(s, r) && !Consolidating(s', r)
    ensures RefInv(s', r)
  {
    UnlinkFaithful(s, s', r, y);
    SameWritten(s, s');
    hide Faithful;
  }

  lemma UnlinkFaithful(s: State, s': State, r: Addr, y: Addr)
    requires UnlinkShape(s, s', r, y) && Faithful(s, r)
    ensures Faithful(s', r)
  {
    forall v: nat, i: nat | s'.refs[r].floor <= v ensures FaithfulAt(s', r, v, i) {
      assert s.refs[r].chain[0] == y;
      assert StopsAt(s, r, v, 0) && FaithfulAt(s, r, v, 0);
    }
  }

  lemma UnlinkPool(s: State, s': State, r: Addr, y: Addr)
    requires UnlinkShape(s, s', r, y) && PoolOk(s) && r in s.role && s.role[r] == RootOf
    requires y in s.role && s.role[y] == ChainOf(r) && s.blocks[y].next.None?
    ensures PoolOk(s')
  {
    forall a | a in s'.role ensures RoleOk(s', a) {
      assert RoleOk(s, a);
      if a in s.refs[r].chain { assert a == y; }
    }
  }

  lemma UnlinkReaders(s: State, s': State, r: Addr, y: Addr)
    requires TM.Inv(s.mgr) && UnlinkShape(s, s', r, y) && Faithful(s, r) && TM.SafeBound(s.mgr, s.refs[r].floor)
    requires SameZombies(s, s')
    ensures ReadersOfKept(s, s', r)
  {
    hide TM.Inv, SameZombies, Faithful;
    forall t | LiveFor(s, t, r)
      ensures LiveFor(s', t, r)
      ensures forall c :: CursorOk(s, r, t.version, c) ==> CursorOk(s', r, t.version, c)
      ensures forall c :: Good(s, r, t.version, c) && c in s.blocks ==>
                Good(s', r, t.version, c) && c in s'.blocks && s'.blocks[c].data == s.blocks[c].data
    {
      hide Live;
      ReaderBound(s, t, s.refs[r].floor);
      UnlinkParked(s, s', r, y, t.version);
      forall c | Good(s, r, t.version, c)
        ensures Parked(s', r, t.version, c) && c in s'.blocks && c in s.blocks && s'.blocks[c].data == s.blocks[c].data
      {
        UnlinkGood(s, s', r, y, t.version, c);
      }
      forall c | CursorOk(s, r, t.version, c) ensures CursorOk(s', r, t.version, c) {
        UnlinkCursor(s, s', r, y, t.version, c);
      }
    }
  }

  lemma UnlinkParked(s: State, s': State, r: Addr, y: Addr, v: nat)
    requires UnlinkShape(s, s', r, y) && Faithful(s, r) && s.refs[r].floor <= v
    ensures Parked(s', r, v, y)
  {
    assert s.refs[r].chain[0] == y;
    assert StopsAt(s, r, v, 0) && FaithfulAt(s, r, v, 0);
  }

  lemma UnlinkGood(s: State, s': State, r: Addr, y: Addr, v: nat, c: Addr)
    requires UnlinkShape(s, s', r, y) && |s.refs[r].hist| > 0 && s.refs[r].floor <= v && Parked(s', r, v, y)
    requires SameZombies(s, s') && Live(s.refs[r].hist, v) && Good(s, r, v, c)
    ensures Parked(s', r, v, c) && c in s'.blocks && c in s.blocks && s'.blocks[c].data == s.blocks[c].data
  {
    assert s.refs[r].chain[0] == y;
    if i: nat :| StopsAt(s, r, v, i) && c == Source(s, r, i) {
      assert c == y;
    } else {
      KeepParked(s, s', r, v, c);
    }
  }

  lemma UnlinkCursor(s: State, s': State, r: Addr, y: Addr, v: nat, c: Cursor)
    requires UnlinkShape(s, s', r, y) && |s.refs[r].hist| > 0 && s.refs[r].floor <= v && Parked(s', r, v, y)
    requires SameZombies(s, s') && Live(s.refs[r].hist, v) && CursorOk(s, r, v, c)
    ensures CursorOk(s', r, v, c)
  {
    assert s.refs[r].chain[0] == y;
    match c {
      case At(None) => assert false;
      case At(Some(a)) =>
        if Parked(s, r, v, a) { KeepParked(s, s', r, v, a); } else { assert a == y; }
      case TooNew(a) => assert false;
      case Chosen(b) => UnlinkGood(s, s', r, y, v, b);
    }
  }

  lemma UnlinkElsewhere(s: State, s': State, r: Addr, y: Addr)
    requires UnlinkShape(s, s', r, y) && y in s.role && s.role[y] == ChainOf(r) && y !in s.refs
    requires r in s.role && s.role[r] == RootOf
    requires forall q :: q != r ==> !Consolidating(s, q)
    ensures SameElsewhere(s, s', r) && SameZombies(s, s') && s'.refs.Keys == s.refs.Keys
  {
  }

  lemma UnlinkData(s: State, s': State, r: Addr, y: Addr)
    requires UnlinkShape(s, s', r, y) && DataOk(s)
    ensures DataOk(s')
  {
    assert forall a :: a in s.blocks ==> s'.blocks[a].data == s.blocks[a].data;
  }

  lemma UnlinkMutator(s: State, s': State, r: Addr, y: Addr)
    requires UnlinkShape(s, s', r, y) && MutatorOk(s) && s.mutator.Stamped? && s.mutator.root == r
    requires s'.mutator == Trimmed(s.mutator.op, r, s.mutator.orv)
    ensures MutatorOk(s')
  {
  }

  lemma UnlinkLooks(s: State, r: Addr, y: Addr)
    requires MutatorOk(s) && s.mutator.Stamped? && s.mutator.root == r && r in s.refs && s.refs[r].chain == [y]
    requires r in s.blocks && y in s.blocks && y != r && s.mutator.orv <= s.refs[r].floor
    requires CanConsolidate(s, r, s.mutator.orv)
    ensures UnlinkShape(s, DoUnlink(s), r, y)
  {
    assert s.refs[r].chain[0] == y;
  }

  lemma NotARef(s: State, y: Addr)
    requires RefsOk(s) && y in s.role && s.role[y].ChainOf?
    ensures y !in s.refs
  {
    hide Faithful, TombOk, Linked, HistOk;
    assert y in s.refs ==> RefOk(s, y);
  }

  lemma UnlinkSafe(s: State)
    requires Inv(s) && Ready(s, LUnlink)
    ensures Defined(s, LUnlink) && Inv(Apply(s, LUnlink))
  {
    hide RefsOk, PoolOk, DataOk, DoomedOk, ReadersOk, TM.Inv, SeenOk, MutatorOk, Linked;
    var r, orv := s.mutator.root, s.mutator.orv;
    CopyDoneHolds(s);
    var y := Single(s, r, orv);
    LastHasNoNext(s, r, y);
    assert s.refs[r].chain[0] == y;
    UnlinkLooks(s, r, y);
    NotARef(s, y);
    UnlinkKeeps(s, r, y);
  }

  lemma LastHasNoNext(s: State, r: Addr, y: Addr)
    requires Linked(s, r) && r in s.refs && s.refs[r].chain == [y] && y in s.blocks
    ensures s.blocks[y].next.None?
  {
    assert s.refs[r].chain[0] == y;
  }

  lemma UnlinkKeeps(s: State, r: Addr, y: Addr)
    requires Inv(s) && s.mutator.Stamped? && s.mutator.root == r && r in s.blocks && r in s.refs
    requires CanConsolidate(s, r, s.mutator.orv) && UnlinkShape(s, DoUnlink(s), r, y)
    requires s.blocks[y].next.None? && y !in s.refs && r in s.role && s.role[r] == RootOf && y in s.role && s.role[y] == ChainOf(r)
    requires TM.SafeBound(s.mgr, s.refs[r].floor)
    ensures Inv(DoUnlink(s))
  {
    hide RefsOk, PoolOk, DataOk, DoomedOk, ReadersOk, TM.Inv, SeenOk, MutatorOk, UnlinkShape, ReadersOfKept, RefOk, Faithful, TombOk;
    var s' := DoUnlink(s);
    UnlinkPool(s, s', r, y);
    UnlinkElsewhere(s, s', r, y);
    RefInvOf(s, r);
    UnlinkRef(s, s', r, y);
    UnlinkReaders(s, s', r, y);
    LocalStep(s, s', r);
    UnlinkData(s, s', r, y);
    UnlinkMutator(s, s', r, y);
    StillNoneDoomed(s, s');
  }

  // ---- nothing to consolidate

  lemma SkipMutator(s: State)
    requires MutatorOk(s) && s.mutator.Freeing? && !CanConsolidate(s, s.mutator.root, s.mutator.orv)
    requires Linked(s, s.mutator.root)
    ensures MutatorOk(DoSkip(s))
  {
    var s' := DoSkip(s);
    assert ChainAt(s', s.mutator.root) == ChainAt(s, s.mutator.root);
  }

  lemma SkipPool(s: State)
    requires PoolOk(s) && DataOk(s) && DoomedOk(s) && s.mutator.Freeing? && s.mutator.cursor.None?
    ensures PoolOk(DoSkip(s)) && DataOk(DoSkip(s)) && DoomedOk(DoSkip(s)) && AllSame(s, DoSkip(s))
  {
    var s' := DoSkip(s);
    forall a | a in s'.role ensures RoleOk(s', a) { assert RoleOk(s, a); }
  }

  /** The target of a call is a reference or a parked block, and its links are in order. */
  lemma TargetLinked(s: State)
    requires PoolOk(s) && RefsOk(s) && MutatorOk(s) && !s.mutator.Idle?
    ensures Linked(s, s.mutator.root)
  {
    hide Faithful, TombOk, HistOk;
    RootRole(s);
    var r := s.mutator.root;
    if r in s.refs { assert RefOk(s, r); } else { assert RoleOk(s, r); }
  }

  lemma SkipSafe(s: State)
    requires Inv(s) && Ready(s, LSkip)
    ensures Defined(s, LSkip) && Inv(Apply(s, LSkip))
  {
    hide RefsOk, PoolOk, DataOk, DoomedOk, ReadersOk, TM.Inv, SeenOk, MutatorOk, Linked, AllSame;
    TargetLinked(s);
    SkipMutator(s);
    SkipPool(s);
    KeepAll(s, DoSkip(s));
  }

  // ---- reclaiming

  /** A root is given back only when its newest version is a tombstone older than `orv`,
      and so than everything running. */
  lemma ReclaimedIsDead(s: State)
    requires RefsOk(s) && MutatorOk(s) && s.mutator.Trimmed? && s.mutator.root in s.refs && s.mutator.root in s.blocks
    requires CanReclaim(s, s.mutator.root, s.mutator.orv)
    ensures var R := s.refs[s.mutator.root];
      && R.chain == [] && |R.hist| > 0 && R.hist[0].value.None? && R.hist[0].ts < s.mutator.orv
      && s.mutator.op.Collect?
      && forall v: nat :: R.floor <= v ==> VersionAt(R.hist, v).value.None?
  {
    hide TombOk, HistOk, StopsAt;
    var r := s.mutator.root;
    RefInvOf(s, r);
    var R := s.refs[r];
    assert s.blocks[r].next == HeadOf(R.chain);
    NewestRoot(s, r);
    forall v: nat | R.floor <= v ensures VersionAt(R.hist, v).value.None? {
      EmptyStops(s, r, v);
      assert FaithfulAt(s, r, v, 0);
    }
  }

  lemma EmptyStops(s: State, r: Addr, v: nat)
    requires r in s.refs && s.refs[r].chain == []
    ensures StopsAt(s, r, v, 0) && Source(s, r, 0) == r
  {
  }

  lemma ReclaimReaders(s: State, s': State)
    requires TM.Inv(s.mgr) && RefsOk(s) && MutatorOk(s) && s.mutator.Trimmed? && s.mutator.root in s.blocks
    requires CanReclaim(s, s.mutator.root, s.mutator.orv)
    ensures ReadersOfKept(s, s', s.mutator.root)
  {
    hide TM.Inv, RefOk, Faithful, TombOk;
    var r := s.mutator.root;
    if r in s.refs {
      ReclaimedIsDead(s);
      FloorOf(s, r);
      forall t | LiveFor(s, t, r) ensures false { ReaderBound(s, t, s.refs[r].floor); }
    }
  }

  lemma FloorOf(s: State, r: Addr)
    requires RefsOk(s) && r in s.refs
    ensures TM.SafeBound(s.mgr, s.refs[r].floor)
  {
    assert RefOk(s, r);
  }

  lemma ReclaimPool(s: State)
    requires PoolOk(s) && s.mutator.Trimmed? && s.mutator.root in s.blocks && s.mutator.root in s.role && s.mutator.op.Collect?
    requires s.mutator.root in s.garbage && (s.mutator.root in s.refs ==> s.refs[s.mutator.root].chain == [])
    requires CanReclaim(s, s.mutator.root, s.mutator.orv)
    ensures PoolOk(DoReclaim(s))
  {
    var s' := DoReclaim(s);
    forall a | a in s'.role ensures RoleOk(s', a) { assert RoleOk(s, a); }
  }

  lemma ReclaimSame(s: State)
    requires s.mutator.Trimmed? && s.mutator.root in s.blocks && s.mutator.root in s.role && DataOk(s)
    requires CanReclaim(s, s.mutator.root, s.mutator.orv)
    ensures SameElsewhere(s, DoReclaim(s), s.mutator.root) && SameZombies(s, DoReclaim(s)) && DataOk(DoReclaim(s))
    ensures DoReclaim(s).refs.Keys <= s.refs.Keys && s.mutator.root !in DoReclaim(s).refs
  {
  }

  lemma NoReclaim(s: State)
    requires PoolOk(s) && DataOk(s) && DoomedOk(s) && MutatorOk(s) && s.mutator.Trimmed? && s.mutator.root in s.blocks
    requires !CanReclaim(s, s.mutator.root, s.mutator.orv)
    ensures var s' := DoReclaim(s);
      && PoolOk(s') && DataOk(s') && DoomedOk(s') && MutatorOk(s') && AllSame(s, s') && s'.garbage == s.garbage
  {
    var s' := DoReclaim(s);
    forall a | a in s'.role ensures RoleOk(s', a) { assert RoleOk(s, a); }
    assert ChainAt(s', s.mutator.root) == ChainAt(s, s.mutator.root);
  }

  lemma CollectsOnly(s: State)
    requires RefsOk(s) && MutatorOk(s) && s.mutator.Trimmed? && s.mutator.root in s.blocks
    requires CanReclaim(s, s.mutator.root, s.mutator.orv)
    ensures s.mutator.op.Collect? && s.mutator.root in s.garbage
    ensures s.mutator.root in s.refs ==> s.refs[s.mutator.root].chain == []
  {
    hide RefsOk, StopsAt;
    if s.mutator.root in s.refs { ReclaimedIsDead(s); }
  }

  lemma ReclaimSafe(s: State)
    requires Inv(s) && Ready(s, LReclaim)
    ensures Defined(s, LReclaim) && Inv(Apply(s, LReclaim))
  {
    hide RefsOk, PoolOk, DataOk, DoomedOk, ReadersOk, TM.Inv, SeenOk, MutatorOk, CanReclaim, DoReclaim;
    RootRole(s);
    ReclaimKeeps(s);
  }

  lemma ReclaimKeeps(s: State)
    requires Inv(s) && s.mutator.Trimmed? && s.mutator.root in s.blocks && s.mutator.root in s.role && !s.role[s.mutator.root].ChainOf?
    ensures Inv(DoReclaim(s))
  {
    hide RefsOk, PoolOk, DataOk, DoomedOk, ReadersOk, TM.Inv, SeenOk, MutatorOk, CanReclaim, DoReclaim,
      AllSame, SameElsewhere, SameZombies, ReadersOfKept;
    var s' := DoReclaim(s);
    if CanReclaim(s, s.mutator.root, s.mutator.orv) {
      CollectsOnly(s);
      ReclaimPool(s);
      ReclaimSame(s);
      ReclaimReaders(s, s');
      LocalStep(s, s', s.mutator.root);
      ReclaimDoomed(s);
    } else {
      NoReclaim(s);
      NotConsolidating(s);
      KeepAll(s, s');
    }
  }

  lemma NotConsolidating(s: State)
    requires s.mutator.Trimmed?
    ensures forall r :: !Consolidating(s, r)
  {
  }

  lemma ReclaimDoomed(s: State)
    requires DoomedOk(s) && s.mutator.Trimmed? && s.mutator.op.Collect? && s.mutator.root in s.blocks
    ensures DoomedOk(DoReclaim(s)) && MutatorOk(DoReclaim(s))
  {
  }
}
