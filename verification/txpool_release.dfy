/** A run that ends in the assertion of a release: an old reader keeps the bound of the
    releasing writer below a version that a later writer has already committed. */
module TxPoolRelease {
  import opened Options
  import TM = TxManager
  import opened TxPoolState
  import opened TxPoolSteps
  import opened TxPoolInvariant
  import opened TxPoolTheorems

  const W1: TM.Tx := TM.Tx(1, 1, 0, TM.ReadWrite)
  const OLD: TM.Tx := TM.Tx(2, 1, 1, TM.ReadOnly)
  const W2: TM.Tx := TM.Tx(3, 3, 1, TM.ReadWrite)
  const W3: TM.Tx := TM.Tx(4, 4, 1, TM.ReadWrite)

  const ROOT: Addr := Addr(0)
  const FIRST: Addr := Addr(1)
  const SECOND: Addr := Addr(2)
  const D0: Addr := Addr(0)
  const D1: Addr := Addr(1)
  const D2: Addr := Addr(2)

  const V0: Version := Version(0, None)
  const V1: Version := Version(1, Some([]))
  const V3: Version := Version(3, Some([]))

  function Memory(root: Block, first: Block): map<Addr, Block> {
    map[ROOT := root, FIRST := first]
  }

  /** The states of the run, one per step. */
  function Scene(k: nat): State {
    var seen1 := map[W1 := {}];
    var seen2 := seen1[OLD := {1}];
    var seen3 := seen2[W2 := {1}];
    var role1 := map[ROOT := RootOf, FIRST := ChainOf(ROOT)];
    var role2 := role1[FIRST := Zombie];
    var first := Block(1, Some(D0), None);
    var data1: map<Addr, Bytes> := map[D0 := []];
    var data2: map<Addr, Bytes> := data1[D1 := []];
    var owner1 := map[D0 := FIRST];
    var owner2 := owner1[D1 := ROOT];
    var alloc := map[ROOT := Ref([V1, V0], [FIRST], 0)];
    var begun := map[ROOT := Ref([V1, V0], [FIRST], 1)];
    var m3 := TM.Manager(4, 1, [OLD, W2]);
    var deref := Deref(W2, true);
    var blocks3 := Memory(Block(1, Some(D1), Some(SECOND)), first)[SECOND := Block(3, Some(D2), None)];
    var refs3 := map[ROOT := Ref([V3, V1, V0], [SECOND], 1)];
    var role3 := role2[SECOND := ChainOf(ROOT)];
    var data3: map<Addr, Bytes> := data2[D2 := []];
    var owner3 := owner2[D2 := SECOND];
    var m4 := TM.Manager(5, 3, [OLD, W3]);
    var seen4 := seen3[W3 := {1, 3}];
    if k == 0 then INITIAL_STATE
    else if k == 1 then State(TM.Manager(2, 0, [W1]), map[], map[], {}, Idle, map[], map[], map[], map[], [], {}, {}, seen1)
    else if k == 2 then State(TM.Manager(2, 0, [W1]), Memory(Block(0, None, Some(FIRST)), first), data1, {}, Idle, map[],
                              alloc, role1, owner1, [], {}, {}, seen1)
    else if k == 3 then State(TM.Manager(2, 1, []), Memory(Block(0, None, Some(FIRST)), first), data1, {}, Idle, map[],
                              alloc, role1, owner1, [], {}, {1}, seen1)
    else if k == 4 then State(TM.Manager(3, 1, [OLD]), Memory(Block(0, None, Some(FIRST)), first), data1, {}, Idle, map[],
                              alloc, role1, owner1, [], {}, {1}, seen2)
    else if k == 5 then State(m3, Memory(Block(0, None, Some(FIRST)), first), data1, {}, Idle, map[],
                              alloc, role1, owner1, [], {}, {1}, seen3)
    else if k == 6 then State(m3, Memory(Block(0, None, Some(FIRST)), first), data1, {}, Freeing(deref, ROOT, 1, None), map[],
                              begun, role1, owner1, [], {}, {1}, seen3)
    else if k == 7 then State(m3, Memory(Block(0, Some(D1), Some(FIRST)), first), data2, {}, Copied(deref, ROOT, 1), map[],
                              begun, role1, owner2, [], {}, {1}, seen3)
    else if k == 8 then State(m3, Memory(Block(1, Some(D1), Some(FIRST)), first), data2, {}, Stamped(deref, ROOT, 1), map[],
                              begun, role1, owner2, [], {}, {1}, seen3)
    else if k == 9 then State(m3, Memory(Block(1, Some(D1), None), first), data2, {FIRST}, Trimmed(deref, ROOT, 1), map[],
                              map[ROOT := Ref([V1, V0], [], 1)], role2, owner2, [], {}, {1}, seen3)
    else if k == 10 then State(m3, Memory(Block(1, Some(D1), None), first), data2, {FIRST}, Collected(deref, ROOT, 1), map[],
                               map[ROOT := Ref([V1, V0], [], 1)], role2, owner2, [], {}, {1}, seen3)
    else if k == 11 then State(m3, blocks3, data3, {FIRST}, Idle, map[], refs3, role3, owner3, [], {}, {1}, seen3)
    else if k == 12 then State(TM.Manager(4, 3, [OLD]), blocks3, data3, {FIRST}, Idle, map[], refs3, role3, owner3, [], {}, {1, 3}, seen3)
    else if k == 13 then State(m4, blocks3, data3, {FIRST}, Idle, map[], refs3, role3, owner3, [], {}, {1, 3}, seen4)
    else if k == 14 then State(m4, blocks3, data3, {FIRST}, Freeing(Release(W3), ROOT, 1, None), map[], refs3, role3, owner3, [], {}, {1, 3}, seen4)
    else if k == 15 then State(m4, blocks3, data3, {FIRST}, Trimmed(Release(W3), ROOT, 1), map[], refs3, role3, owner3, [], {}, {1, 3}, seen4)
    else State(m4, blocks3, data3, {FIRST}, Collected(Release(W3), ROOT, 1), map[], refs3, role3, owner3, [], {}, {1, 3}, seen4)
  }

  function Script(k: nat): Label {
    match k
    case 0 => LBegin(TM.ReadWrite)
    case 1 => LAlloc(W1, ROOT, FIRST, D0, [])
    case 2 => LCommit(0)
    case 3 => LBegin(TM.ReadOnly)
    case 4 => LBegin(TM.ReadWrite)
    case 5 => LStart(Deref(W2, true), ROOT, 1)
    case 6 => LCopy(D1)
    case 7 => LStamp
    case 8 => LUnlink
    case 9 => LReclaim
    case 10 => LFinish(SECOND, D2)
    case 11 => LCommit(1)
    case 12 => LBegin(TM.ReadWrite)
    case 13 => LStart(Release(W3), ROOT, 1)
    case 14 => LSkip
    case _ => LReclaim
  }

  lemma Step0()
    ensures Steps(Scene(0), Script(0), Scene(1))
  {
  }

  lemma Step1()
    ensures Steps(Scene(1), Script(1), Scene(2))
  {
  }

  lemma Step2()
    ensures Steps(Scene(2), Script(2), Scene(3))
  {
  }

  lemma Step3()
    ensures Steps(Scene(3), Script(3), Scene(4))
  {
  }

  lemma Step4()
    ensures Steps(Scene(4), Script(4), Scene(5))
  {
  }

  lemma Step5()
    ensures Steps(Scene(5), Script(5), Scene(6))
  {
    ReadyAt5();
    AppliedAt5();
    hide Scene, Script, Ready, Defined, Apply;
  }

  lemma ReadyAt5()
    ensures Ready(Scene(5), Script(5)) && Defined(Scene(5), Script(5))
  {
  }

  lemma AppliedAt5()
    requires Ready(Scene(5), Script(5)) && Defined(Scene(5), Script(5))
    ensures Apply(Scene(5), Script(5)) == Scene(6)
  {
    hide Ready, Defined;
    var s := Scene(5);
    assert CutFrom(s, [FIRST], 1, 0) == 0;
    assert [FIRST][1..] == [] && [FIRST][..1] == [FIRST];
    assert Retag(s.role, []) == s.role;
    assert s.blocks[FIRST := Block(1, Some(D0), None)] == s.blocks;
    assert DoStart(s, Deref(W2, true), ROOT, 1) == Scene(6);
  }

  lemma Step6()
    ensures Steps(Scene(6), Script(6), Scene(7))
  {
  }

  lemma Step7()
    ensures Steps(Scene(7), Script(7), Scene(8))
  {
  }

  lemma Step8()
    ensures Steps(Scene(8), Script(8), Scene(9))
  {
  }

  lemma Step9()
    ensures Steps(Scene(9), Script(9), Scene(10))
  {
  }

  lemma Step10()
    ensures Steps(Scene(10), Script(10), Scene(11))
  {
    DerefScene();
    hide Scene, Steps, DoDeref, FinishDefined;
    DerefStep(Scene(10), Scene(11), W2, ROOT, 1, SECOND, D2);
  }

  lemma DerefStep(s: State, s': State, w: TM.Tx, r: Addr, orv: nat, block: Addr, ptr: Addr)
    requires s.mutator == Collected(Deref(w, true), r, orv) && block !in s.blocks && ptr !in s.data
    requires FinishDefined(s, Deref(w, true), r, orv) && DoDeref(s, w, true, block, ptr) == s'
    ensures Steps(s, LFinish(block, ptr), s')
  {
    hide FinishDefined, DoDeref;
  }

  lemma DerefDefined()
    ensures FinishDefined(Scene(10), Deref(W2, true), ROOT, 1) && Candidate(Scene(10), ROOT, 3) == ROOT
  {
    assert Linked(Scene(10), ROOT);
  }

  lemma DerefScene()
    ensures var s := Scene(10);
      s.mutator == Collected(Deref(W2, true), ROOT, 1) && SECOND !in s.blocks && D2 !in s.data
      && FinishDefined(s, Deref(W2, true), ROOT, 1) && DoDeref(s, W2, true, SECOND, D2) == Scene(11)
    ensures Script(10) == LFinish(SECOND, D2)
  {
    DerefDefined();
    hide FinishDefined, Candidate, Linked;
    var s := Scene(10);
    DerefWrites(s);
  }

  lemma DerefWrites(s: State)
    requires s == Scene(10) && FinishDefined(s, Deref(W2, true), ROOT, 1) && Candidate(s, ROOT, 3) == ROOT
    ensures s.mutator == Collected(Deref(W2, true), ROOT, 1) && DoDeref(s, W2, true, SECOND, D2) == Scene(11)
  {
    hide FinishDefined, Candidate, Linked, Push;
    VersionPushed(s.(mutator := Idle));
  }

  lemma VersionPushed(s: State)
    requires s == Scene(10).(mutator := Idle)
    ensures ROOT in s.blocks && ROOT in s.refs
    ensures Push(s, ROOT, SECOND, Block(3, Some(D2), None), [], V3).(data := s.data[D2 := []], owner := s.owner[D2 := SECOND])
            == Scene(11)
  {
    var s' := Push(s, ROOT, SECOND, Block(3, Some(D2), None), [], V3);
    assert s'.refs[ROOT].chain == [SECOND] && s'.refs[ROOT].hist == [V3, V1, V0];
    assert s'.refs == Scene(11).refs;
  }

  lemma Step11()
    ensures Steps(Scene(11), Script(11), Scene(12))
  {
  }

  lemma Step12()
    ensures Steps(Scene(12), Script(12), Scene(13))
  {
  }

  lemma Step13()
    ensures Steps(Scene(13), Script(13), Scene(14))
  {
    ReadyAt13();
    AppliedAt13();
    hide Scene, Script, Ready, Defined, Apply;
  }

  lemma ReadyAt13()
    ensures Ready(Scene(13), Script(13)) && Defined(Scene(13), Script(13))
  {
  }

  lemma AppliedAt13()
    requires Ready(Scene(13), Script(13)) && Defined(Scene(13), Script(13))
    ensures Apply(Scene(13), Script(13)) == Scene(14)
  {
    hide Ready, Defined;
    var s := Scene(13);
    assert CutFrom(s, [SECOND], 1, 0) == 1;
    assert DoStart(s, Release(W3), ROOT, 1) == Scene(14);
  }

  lemma Step14()
    ensures Steps(Scene(14), Script(14), Scene(15))
  {
  }

  lemma Step15()
    ensures Steps(Scene(15), Script(15), Scene(16))
  {
  }

  lemma LastFails()
    ensures Ready(Scene(16), LFinish(Addr(3), Addr(3))) && !Defined(Scene(16), LFinish(Addr(3), Addr(3)))
  {
  }

  lemma FirstIsInitial()
    ensures Scene(0) == INITIAL_STATE
  {
  }

  /** The run is a run of the protocol, its last state is about to end a release, and the
      assertion of that release is false there. */
  lemma ReleaseAborts()
    ensures var ls, ss := seq(16, (i: nat) => Script(i)), seq(17, (i: nat) => Scene(i));
      && IsRun(ls, ss)
      && Ready(ss[16], LFinish(Addr(3), Addr(3)))
      && !Defined(ss[16], LFinish(Addr(3), Addr(3)))
  {
    var ls, ss := seq(16, (i: nat) => Script(i)), seq(17, (i: nat) => Scene(i));
    Step0();
    Step1();
    Step2();
    Step3();
    Step4();
    Step5();
    Step6();
    Step7();
    Step8();
    Step9();
    Step10();
    Step11();
    Step12();
    Step13();
    Step14();
    Step15();
    hide Steps, Scene, Script;
    forall i | 0 <= i < 16 ensures Steps(ss[i], ls[i], ss[i + 1]) {
      assert i == 0 || i == 1 || i == 2 || i == 3 || i == 4 || i == 5 || i == 6 || i == 7
          || i == 8 || i == 9 || i == 10 || i == 11 || i == 12 || i == 13 || i == 14 || i == 15;
    }
    LastFails();
    FirstIsInitial();
  }
}
