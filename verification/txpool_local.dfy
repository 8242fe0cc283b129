/** Steps that touch one reference: what has to be shown for it, and why that is enough. */
module TxPoolLocal {
  import opened Options
  import TM = TxManager
  import opened TxPoolState
  import opened TxPoolSteps
  import opened TxPoolInvariant
  import opened TxPoolFrame

  /** Blocks that belong to neither `r` nor the list being freed keep their contents. */
  ghost predicate OthersSame(s: State, s': State, r: Addr) {
    forall a :: a in s.role && a in s.blocks && a != r && s.role[a] != ChainOf(r) && s.role[a] != Doomed ==>
      SameBlock(s, s', a)
  }

  /** Transactions and the other references are the same. */
  ghost predicate SameElsewhere(s: State, s': State, r: Addr) {
    && s'.mgr == s.mgr && s'.committed == s.committed && s'.seen == s.seen
    && s'.walks == s.walks && s'.held == s.held
    && OthersSame(s, s', r)
    && (forall q :: q in s.refs && q != r ==> q in s'.refs && s'.refs[q] == s.refs[q])
    && (forall q :: q in s'.garbage && q in s.refs && q != r ==> q in s.garbage)
    && (forall q :: q != r && Consolidating(s, q) ==> Consolidating(s', q))
  }

  lemma ViewElsewhere(s: State, s': State, r: Addr, q: Addr)
    requires SameElsewhere(s, s', r) && q in s.refs && q != r && RefInv(s, q)
    requires r in s.role && !s.role[r].ChainOf?
    ensures SameView(s, s', q)
  {
    var chain := s.refs[q].chain;
    forall i | 0 <= i < |chain| ensures SameBlock(s, s', chain[i]) {
      assert s.role[chain[i]] == ChainOf(q);
    }
  }

  lemma RefElsewhere(s: State, s': State, r: Addr, q: Addr)
    requires SameElsewhere(s, s', r) && q in s.refs && q != r && RefInv(s, q)
    requires r in s.role && !s.role[r].ChainOf?
    ensures SameView(s, s', q) && RefInv(s', q)
  {
    ViewElsewhere(s, s', r, q);
    SameWritten(s, s');
    KeepRef(s, s', q);
  }

  lemma SameWritten(s: State, s': State)
    requires s'.mgr == s.mgr && s'.committed == s.committed
    ensures WrittenGrows(s, s')
  {
  }

  /** What a step owes the readers of `r`. */
  ghost predicate ReadersOfKept(s: State, s': State, r: Addr) {
    forall t :: LiveFor(s, t, r) ==>
      && LiveFor(s', t, r)
      && (forall c :: CursorOk(s, r, t.version, c) ==> CursorOk(s', r, t.version, c))
      && (forall c :: Good(s, r, t.version, c) && c in s.blocks ==>
            Good(s', r, t.version, c) && c in s'.blocks && s'.blocks[c].data == s.blocks[c].data)
  }

  lemma ReadersElsewhere(s: State, s': State, r: Addr)
    requires SameElsewhere(s, s', r) && RefsOk(s) && ReadersOk(s)
    requires r in s.role && !s.role[r].ChainOf? && SameZombies(s, s') && ReadersOfKept(s, s', r)
    ensures ReadersOk(s')
  {
    hide CursorOk, Good, SameView, RefInv, SameZombies, OthersSame, RefOk, Faithful, TombOk, Live;
    forall t | t in s'.walks ensures WalkOk(s', t) {
      assert WalkOk(s, t);
      var q := s.walks[t].root;
      if q != r {
        RefInvOf(s, q);
        RefElsewhere(s, s', r, q);
        KeepCursor(s, s', q, t.version, s.walks[t].cursor);
      }
    }
    forall h | h in s'.held ensures HeldOk(s', h) {
      assert HeldOk(s, h);
      if h.root != r {
        RefInvOf(s, h.root);
        RefElsewhere(s, s', r, h.root);
        KeepGood(s, s', h.root, h.tx.version, h.block);
        SourceSame(s, s', h);
        SameBlockData(s, s', h.block);
      }
    }
  }

  lemma SameBlockData(s: State, s': State, a: Addr)
    requires SameBlock(s, s', a)
    ensures a in s.blocks && a in s'.blocks && s'.blocks[a].data == s.blocks[a].data
  {
  }

  lemma RefInvOf(s: State, q: Addr)
    requires RefsOk(s) && q in s.refs
    ensures RefInv(s, q)
  {
  }

  /** The pieces of the invariant that a local step has to establish itself. */
  lemma LocalStep(s: State, s': State, r: Addr)
    requires TM.Inv(s.mgr) && SeenOk(s) && RefsOk(s) && ReadersOk(s)
    requires SameElsewhere(s, s', r) && r in s.role && !s.role[r].ChainOf?
    requires s'.refs.Keys <= s.refs.Keys && (r in s'.refs ==> RefInv(s', r))
    requires SameZombies(s, s') && ReadersOfKept(s, s', r)
    ensures TM.Inv(s'.mgr) && SeenOk(s') && RefsOk(s') && ReadersOk(s')
  {
    hide ReadersOfKept, SameZombies, ReadersOk, RefsOk, OthersSame, RefInv, TM.Inv;
    ReadersElsewhere(s, s', r);
    RefsElsewhere(s, s', r);
    assert forall t :: ReaderTx(s', t) <==> ReaderTx(s, t);
  }

  lemma RefsElsewhere(s: State, s': State, r: Addr)
    requires RefsOk(s) && SameElsewhere(s, s', r) && r in s.role && !s.role[r].ChainOf?
    requires s'.refs.Keys <= s.refs.Keys && (r in s'.refs ==> RefInv(s', r))
    ensures RefsOk(s')
  {
    hide SameElsewhere, RefOk, Faithful, TombOk;
    forall q | q in s'.refs ensures RefOk(s', q) && Faithful(s', q) && TombOk(s', q) {
      if q != r { RefInvOf(s, q); RefElsewhere(s, s', r, q); }
    }
  }
}
