/** What a step that does not touch a reference leaves as it was. */
module TxPoolFrame {
  import opened Options
  import TM = TxManager
  import opened TxPoolState
  import opened TxPoolSteps
  import opened TxPoolInvariant

  /** Block `a` and the data it points to are the same in both states. */
  ghost predicate SameBlock(s: State, s': State, a: Addr) {
    && a in s.blocks && a in s'.blocks && s'.blocks[a] == s.blocks[a]
    && (a in s.role ==> a in s'.role && s'.role[a] == s.role[a])
    && (s.blocks[a].data.Some? && s.blocks[a].data.value in s.data ==>
          s.blocks[a].data.value in s'.data && s'.data[s.blocks[a].data.value] == s.data[s.blocks[a].data.value])
  }

  ghost predicate SameView(s: State, s': State, r: Addr) {
    && r in s.refs && r in s'.refs && s'.refs[r] == s.refs[r]
    && SameBlock(s, s', r)
    && forall i :: 0 <= i < |s.refs[r].chain| ==> SameBlock(s, s', s.refs[r].chain[i])
  }

  /** A live reader can only be at a zombie that still has data. */
  ghost predicate SameZombies(s: State, s': State) {
    forall a :: a in s.role && s.role[a] == Zombie && a in s.blocks && s.blocks[a].data.Some? ==> SameBlock(s, s', a)
  }

  ghost predicate WrittenGrows(s: State, s': State) {
    forall ts :: Written(s, ts) ==> Written(s', ts)
  }

  ghost predicate RefInv(s: State, r: Addr)
    requires r in s.refs
  {
    RefOk(s, r) && Faithful(s, r) && TombOk(s, r)
  }

  lemma KeepRef(s: State, s': State, r: Addr)
    requires SameView(s, s', r) && RefInv(s, r)
    requires WrittenGrows(s, s') && TM.SafeBound(s'.mgr, s.refs[r].floor)
    requires r in s'.garbage ==> r in s.garbage
    requires Consolidating(s, r) ==> Consolidating(s', r)
    ensures RefInv(s', r)
  {
    hide RefOk, Faithful, TombOk, WrittenGrows, TM.SafeBound;
    KeepRefOk(s, s', r);
    KeepFaithful(s, s', r);
    KeepTomb(s, s', r);
  }

  lemma KeepRefOk(s: State, s': State, r: Addr)
    requires SameView(s, s', r) && RefOk(s, r)
    requires WrittenGrows(s, s') && TM.SafeBound(s'.mgr, s.refs[r].floor)
    ensures RefOk(s', r)
  {
    hide TM.SafeBound, Linked, Decreasing, HistOk, WrittenGrows;
    KeepLinks(s, s', r);
    KeepHistOk(s, s', s.refs[r].hist);
  }

  lemma KeepLinks(s: State, s': State, r: Addr)
    requires SameView(s, s', r)
    ensures Linked(s, r) ==> Linked(s', r)
    ensures Decreasing(s, s.refs[r].chain) ==> Decreasing(s', s.refs[r].chain)
  {
    assert ChainAt(s', r) == ChainAt(s, r);
  }

  lemma KeepHistOk(s: State, s': State, hist: seq<Version>)
    requires HistOk(s, hist) && WrittenGrows(s, s')
    ensures HistOk(s', hist)
  {
    hide Written;
  }

  lemma KeepFaithful(s: State, s': State, r: Addr)
    requires SameView(s, s', r) && Faithful(s, r)
    ensures Faithful(s', r)
  {
    forall v: nat, i: nat | s.refs[r].floor <= v ensures FaithfulAt(s', r, v, i) {
      if StopsAt(s', r, v, i) {
        assert StopsAt(s, r, v, i);
        assert FaithfulAt(s, r, v, i);
        assert SameBlock(s, s', Source(s, r, i));
      }
    }
  }

  lemma KeepTomb(s: State, s': State, r: Addr)
    requires SameView(s, s', r) && TombOk(s, r)
    requires r in s'.garbage ==> r in s.garbage
    requires Consolidating(s, r) ==> Consolidating(s', r)
    ensures TombOk(s', r)
  {
    assert ChainAt(s', r) == ChainAt(s, r);
  }

  lemma KeepParked(s: State, s': State, r: Addr, v: nat, c: Addr)
    requires r in s.refs && r in s'.refs && s'.refs[r].hist == s.refs[r].hist && SameZombies(s, s')
    requires |s.refs[r].hist| > 0 && Live(s.refs[r].hist, v) && Parked(s, r, v, c)
    ensures Parked(s', r, v, c) && c in s'.blocks && s'.blocks[c] == s.blocks[c]
  {
  }

  lemma KeepGood(s: State, s': State, r: Addr, v: nat, c: Addr)
    requires SameView(s, s', r) && SameZombies(s, s')
    requires |s.refs[r].hist| > 0 && Live(s.refs[r].hist, v) && Good(s, r, v, c)
    ensures Good(s', r, v, c)
  {
    if i: nat :| StopsAt(s, r, v, i) && c == Source(s, r, i) {
      assert StopsAt(s', r, v, i);
    }
  }

  lemma KeepCursor(s: State, s': State, r: Addr, v: nat, c: Cursor)
    requires SameView(s, s', r) && SameZombies(s, s')
    requires |s.refs[r].hist| > 0 && Live(s.refs[r].hist, v) && CursorOk(s, r, v, c)
    ensures CursorOk(s', r, v, c)
  {
    assert forall i :: Passed(s, r, v, i) ==> Passed(s', r, v, i);
    match c {
      case At(None) =>
      case At(Some(a)) =>
        if Parked(s, r, v, a) { KeepParked(s, s', r, v, a); }
      case TooNew(a) =>
      case Chosen(c) => KeepGood(s, s', r, v, c);
    }
  }

  /** A reader keeps its transaction. */
  ghost predicate ReadersStay(s: State, s': State) {
    && (forall t :: t in s'.walks ==> t in s.walks && s'.walks[t] == s.walks[t] && ReaderTx(s', t))
    && (forall h :: h in s'.held ==> h in s.held && ReaderTx(s', h.tx))
  }

  lemma KeepReaders(s: State, s': State)
    requires ReadersOk(s) && ReadersStay(s, s') && SameZombies(s, s')
    requires forall r :: r in s.refs ==> SameView(s, s', r)
    ensures ReadersOk(s')
  {
    forall t | t in s'.walks ensures WalkOk(s', t) {
      assert WalkOk(s, t);
      KeepCursor(s, s', s.walks[t].root, t.version, s.walks[t].cursor);
    }
    forall h | h in s'.held ensures HeldOk(s', h) {
      assert HeldOk(s, h);
      KeepGood(s, s', h.root, h.tx.version, h.block);
      SourceSame(s, s', h);
    }
  }

  lemma SourceSame(s: State, s': State, h: Held)
    requires HeldOk(s, h) && SameView(s, s', h.root) && SameZombies(s, s')
    ensures SameBlock(s, s', h.block)
  {
    if i: nat :| StopsAt(s, h.root, h.tx.version, i) && h.block == Source(s, h.root, i) {
    }
  }

  /** Memory, references and the mutating call are the same; only transactions change. */
  ghost predicate SameMemory(s: State, s': State) {
    && s'.blocks == s.blocks && s'.data == s.data && s'.refs == s.refs && s'.role == s.role
    && s'.owner == s.owner && s'.doomed == s.doomed && s'.garbage == s.garbage && s'.mutator == s.mutator
  }

  lemma KeepPool(s: State, s': State)
    requires PoolOk(s) && DataOk(s) && DoomedOk(s) && SameMemory(s, s')
    ensures PoolOk(s') && DataOk(s') && DoomedOk(s') && SameZombies(s, s')
  {
    forall a | a in s'.role ensures RoleOk(s', a) { assert RoleOk(s, a); }
  }

  lemma KeepMemory(s: State, s': State)
    requires RefsOk(s) && SameMemory(s, s')
    requires WrittenGrows(s, s')
    requires forall b :: TM.SafeBound(s.mgr, b) ==> TM.SafeBound(s'.mgr, b)
    ensures RefsOk(s') && forall r :: r in s.refs ==> SameView(s, s', r)
  {
    forall r | r in s.refs ensures SameView(s, s', r) && RefInv(s', r) { KeepMemoryAt(s, s', r); }
  }

  lemma KeepMemoryAt(s: State, s': State, r: Addr)
    requires RefsOk(s) && SameMemory(s, s') && r in s.refs
    requires WrittenGrows(s, s')
    requires forall b :: TM.SafeBound(s.mgr, b) ==> TM.SafeBound(s'.mgr, b)
    ensures SameView(s, s', r) && RefInv(s', r)
  {
    hide HistOk, Faithful, TombOk, WrittenGrows;
    assert RefOk(s, r);
    KeepRef(s, s', r);
  }

  lemma KeepMutator(s: State, s': State)
    requires MutatorOk(s) && SameMemory(s, s')
    requires forall b :: TM.SafeBound(s.mgr, b) ==> TM.SafeBound(s'.mgr, b)
    requires WriterBusy(s) ==> WriterTx(s', s.mutator.op.writer)
    ensures MutatorOk(s')
  {
    assert forall r :: ChainAt(s', r) == ChainAt(s, r);
  }

  // ---- steps that change no reference at all

  ghost predicate AllSame(s: State, s': State) {
    && s'.mgr == s.mgr && s'.committed == s.committed && s'.seen == s.seen
    && s'.walks == s.walks && s'.held == s.held && s'.refs == s.refs
    && forall a :: a in s.role && a in s.blocks && s.role[a] != Doomed ==> SameBlock(s, s', a)
  }

  lemma AllSameView(s: State, s': State, r: Addr)
    requires AllSame(s, s') && r in s.refs && RefOk(s, r)
    ensures SameView(s, s', r)
  {
    forall i | 0 <= i < |s.refs[r].chain| ensures SameBlock(s, s', s.refs[r].chain[i]) {
      assert s.role[s.refs[r].chain[i]] == ChainOf(r);
    }
  }

  lemma KeepAll(s: State, s': State)
    requires TM.Inv(s.mgr) && SeenOk(s) && RefsOk(s) && ReadersOk(s) && AllSame(s, s')
    requires forall r :: r in s'.garbage ==> r in s.garbage
    requires forall r :: Consolidating(s, r) ==> Consolidating(s', r)
    ensures TM.Inv(s'.mgr) && SeenOk(s') && RefsOk(s') && ReadersOk(s')
  {
    hide ReadersOk, RefOk, Faithful, TombOk, TM.Inv, SameView, TM.SafeBound;
    forall r | r in s.refs ensures SameView(s, s', r) && RefOk(s', r) && Faithful(s', r) && TombOk(s', r) {
      AllSameView(s, s', r);
      RefFloor(s, r);
      assert WrittenGrows(s, s');
      KeepRef(s, s', r);
    }
    ReadersRun(s);
    assert forall t :: ReaderTx(s', t) <==> ReaderTx(s, t);
    assert SameZombies(s, s');
    KeepReaders(s, s');
  }

  lemma RefFloor(s: State, r: Addr)
    requires r in s.refs && RefOk(s, r)
    ensures TM.SafeBound(s.mgr, s.refs[r].floor)
  {
  }

  lemma ReadersRun(s: State)
    requires ReadersOk(s)
    ensures forall t :: t in s.walks ==> ReaderTx(s, t)
    ensures forall h :: h in s.held ==> ReaderTx(s, h.tx)
  {
    hide CursorOk, Good;
    forall t | t in s.walks ensures ReaderTx(s, t) { assert WalkOk(s, t); }
    forall h | h in s.held ensures ReaderTx(s, h.tx) { assert HeldOk(s, h); }
  }
}
