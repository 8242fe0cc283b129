/** A reference with two versions at most the bound that no collection at that bound can join. */
module TxPoolSplit {
  import opened Options
  import TM = TxManager
  import opened TxPoolState
  import opened TxPoolSteps
  import opened TxPoolInvariant
  import opened TxPoolFrame
  import opened TxPoolCollect

  const ROOT := Addr(0)
  const OLD := Addr(1)
  const NEW := Addr(2)
  const READER := TM.Tx(3, 2, 1, TM.ReadOnly)
  const WRITER := TM.Tx(5, 5, 2, TM.ReadWrite)
  const HISTORY := [Version(4, Some([])), Version(2, Some([])), Version(1, Some([])), Version(0, None)]

  const SPLIT := State(
    TM.Manager(6, 4, [READER, WRITER]),
    map[ROOT := Block(1, Some(Addr(10)), Some(NEW)), OLD := Block(2, Some(Addr(11)), None), NEW := Block(4, Some(Addr(12)), Some(OLD))],
    map[Addr(10) := [], Addr(11) := [], Addr(12) := []],
    {}, Idle, map[],
    map[ROOT := Ref(HISTORY, [NEW, OLD], 1)],
    map[ROOT := RootOf, OLD := ChainOf(ROOT), NEW := ChainOf(ROOT)],
    map[Addr(10) := ROOT, Addr(11) := OLD, Addr(12) := NEW],
    [], {}, {1, 2, 4}, map[READER := {1, 2}])

  lemma ManagerOk()
    ensures TM.Inv(SPLIT.mgr) && SeenOk(SPLIT)
  {
    forall t | ReaderTx(SPLIT, t) ensures t == READER {}
  }

  lemma MemoryOk()
    ensures PoolOk(SPLIT) && DoomedOk(SPLIT) && MutatorOk(SPLIT) && ReadersOk(SPLIT)
  {
  }

  lemma PointersOk()
    ensures DataOk(SPLIT)
  {
  }

  lemma RefIsOk()
    ensures RefOk(SPLIT, ROOT) && TombOk(SPLIT, ROOT)
  {
  }

  lemma FaithfulRef()
    ensures Faithful(SPLIT, ROOT)
  {
    forall v: nat, i: nat | 1 <= v ensures FaithfulAt(SPLIT, ROOT, v, i) {
      assert HISTORY[1..][1..][1..] == [Version(0, None)];
      assert ChainAt(SPLIT, ROOT) == [NEW, OLD];
      assert VersionAt(HISTORY, v) == if 4 <= v then HISTORY[0] else if 2 <= v then HISTORY[1] else HISTORY[2];
      if StopsAt(SPLIT, ROOT, v, i) {
        assert SPLIT.blocks[[NEW, OLD][0]].ts == 4 && SPLIT.blocks[[NEW, OLD][1]].ts == 2;
        if i > 0 { assert SPLIT.blocks[ChainAt(SPLIT, ROOT)[0]].ts > v; }
        if i > 1 { assert SPLIT.blocks[ChainAt(SPLIT, ROOT)[1]].ts > v; }
        assert i == if 4 <= v then 0 else if 2 <= v then 1 else 2;
        assert Content(SPLIT, Source(SPLIT, ROOT, i)) == HISTORY[i];
      }
    }
  }

  /** A reader of version 2 and a writer with bound 2 run; the reference has the versions 4 and 2 over the root's 1. */
  lemma SplitExample()
    ensures Inv(SPLIT) && SPLIT.mutator.Idle? && CallOk(SPLIT, Deref(WRITER, false), ROOT, WRITER.orv)
    ensures ChainIn(SPLIT, ROOT) && Splits(SPLIT, ROOT, WRITER.orv)
  {
    hide PoolOk, DataOk, DoomedOk, ReadersOk, TM.Inv, SeenOk, RefOk, Faithful, TombOk, MutatorOk;
    ManagerOk();
    MemoryOk();
    PointersOk();
    RefIsOk();
    FaithfulRef();
  }
}
