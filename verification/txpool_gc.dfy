/** The steps of a collection keep the invariant. */
module TxPoolGc {
  import opened Options
  import TM = TxManager
  import opened TxPoolState
  import opened TxPoolSteps
  import opened TxPoolInvariant
  import opened TxPoolFrame
  import opened TxPoolLocal
  import opened TxPoolReaders

  lemma SafeOrv(s: State, op: Op, root: Addr, orv: nat)
    requires TM.Inv(s.mgr) && CallOk(s, op, root, orv)
    ensures TM.SafeBound(s.mgr, orv)
  {
    if !op.Collect? {
      var i :| 0 <= i < |s.mgr.running| && s.mgr.running[i] == op.writer;
    }
  }

  // ---- the cut

  /** What the cut does to a chain: everything past the first version at most `orv` goes. */
  ghost predicate CutShape(s: State, s': State, r: Addr, orv: nat, k: nat) {
    && r in s.refs && r in s'.refs
    && var chain, kept := s.refs[r].chain, s'.refs[r].chain;
       && s'.refs[r].hist == s.refs[r].hist
       && k <= |chain|
       && |kept| == (if k < |chain| then k + 1 else |chain|)
       && (forall i :: 0 <= i < |kept| ==>
             && kept[i] == chain[i]
             && kept[i] in s.blocks && kept[i] in s'.blocks
             && s'.blocks[kept[i]] == (if i == k then s.blocks[kept[i]].(next := None) else s.blocks[kept[i]]))
       && r in s.blocks && r in s'.blocks && s'.blocks[r] == s.blocks[r]
       && s'.data == s.data
       && (k < |chain| ==> s.blocks[chain[k]].ts <= orv)
  }

  lemma CutStops(s: State, s': State, r: Addr, orv: nat, k: nat, v: nat, i: nat)
    requires CutShape(s, s', r, orv, k) && orv <= v
    ensures StopsAt(s, r, v, i) ==> StopsAt(s', r, v, i) && Source(s', r, i) == Source(s, r, i)
    ensures StopsAt(s', r, v, i) ==> StopsAt(s, r, v, i) && Source(s', r, i) == Source(s, r, i)
  {
    var chain, kept := s.refs[r].chain, s'.refs[r].chain;
    assert forall j :: 0 <= j < |kept| ==> kept[j] == chain[j] && s'.blocks[kept[j]].ts == s.blocks[chain[j]].ts;
    if k < |chain| { assert kept[k] == chain[k]; }
  }

  lemma CutPassed(s: State, s': State, r: Addr, orv: nat, k: nat, v: nat, i: int)
    requires CutShape(s, s', r, orv, k) && orv <= v && Passed(s, r, v, i)
    ensures Passed(s', r, v, i) && i < |s'.refs[r].chain|
    ensures i + 1 < |s.refs[r].chain| ==> i + 1 < |s'.refs[r].chain|
  {
    var chain, kept := s.refs[r].chain, s'.refs[r].chain;
    assert forall j :: 0 <= j < |kept| ==> kept[j] == chain[j] && s'.blocks[kept[j]].ts == s.blocks[chain[j]].ts;
    if k < |chain| { assert kept[k] == chain[k]; }
  }

  lemma CutReaders(s: State, s': State, r: Addr, orv: nat, k: nat)
    requires TM.Inv(s.mgr) && TM.SafeBound(s.mgr, orv) && s'.mgr == s.mgr
    requires CutShape(s, s', r, orv, k) && SameZombies(s, s')
    ensures ReadersOfKept(s, s', r)
  {
    forall t | LiveFor(s, t, r)
      ensures LiveFor(s', t, r)
      ensures forall c :: CursorOk(s, r, t.version, c) ==> CursorOk(s', r, t.version, c)
      ensures forall c :: Good(s, r, t.version, c) && c in s.blocks ==>
                Good(s', r, t.version, c) && c in s'.blocks && s'.blocks[c].data == s.blocks[c].data
    {
      ReaderBound(s, t, orv);
      forall c | Good(s, r, t.version, c)
        ensures Good(s', r, t.version, c) && c in s'.blocks && c in s.blocks && s'.blocks[c].data == s.blocks[c].data
      {
        if i: nat :| StopsAt(s, r, t.version, i) && c == Source(s, r, i) {
          CutStops(s, s', r, orv, k, t.version, i);
        } else {
          KeepParked(s, s', r, t.version, c);
        }
      }
      forall c | CursorOk(s, r, t.version, c) ensures CursorOk(s', r, t.version, c) {
        CutCursor(s, s', r, orv, k, t.version, c);
      }
    }
  }

  lemma CutCursor(s: State, s': State, r: Addr, orv: nat, k: nat, v: nat, c: Cursor)
    requires CutShape(s, s', r, orv, k) && orv <= v
    requires |s.refs[r].hist| > 0 && CursorOk(s, r, v, c)
    requires forall c :: Good(s, r, v, c) ==> Good(s', r, v, c)
    requires Live(s.refs[r].hist, v) && SameZombies(s, s')
    ensures CursorOk(s', r, v, c)
  {
    hide Good, Live;
    var chain, kept := s.refs[r].chain, s'.refs[r].chain;
    match c {
      case At(None) => CutPassed(s, s', r, orv, k, v, |chain| - 1);
      case At(Some(a)) =>
        if i :| 0 <= i < |chain| && chain[i] == a && Passed(s, r, v, i - 1) {
          CutPassed(s, s', r, orv, k, v, i - 1);
          assert kept[i] == a;
        } else {
          KeepParked(s, s', r, v, a);
        }
      case TooNew(a) =>
        var i :| 0 <= i < |chain| && chain[i] == a && Passed(s, r, v, i);
        CutPassed(s, s', r, orv, k, v, i);
        assert kept[i] == a;
      case Chosen(c) =>
    }
  }


  /** How `DoStart` looks from outside. */
  ghost predicate StartShape(s: State, s': State, op: Op, r: Addr, orv: nat, k: nat, rest: seq<Addr>) {
    && (r in s.refs ==>
          && CutShape(s, s', r, orv, k)
          && s.refs[r].chain == s'.refs[r].chain + rest
          && s'.refs[r].floor == Larger(s.refs[r].floor, orv)
          && (forall i :: 0 <= i < k ==> s.blocks[s.refs[r].chain[i]].ts > orv))
    && (r !in s.refs ==> rest == [] && s'.blocks == s.blocks)
    && s'.refs.Keys == s.refs.Keys && (forall q :: q in s.refs && q != r ==> s'.refs[q] == s.refs[q])
    && s'.role.Keys == s.role.Keys
    && (forall a :: a in s.role ==> s'.role[a] == if a in rest then Doomed else s.role[a])
    && s'.blocks.Keys == s.blocks.Keys
    && (forall a :: a in s.blocks ==>
          s'.blocks[a] == s.blocks[a] || (a in ChainAt(s, r) && s'.blocks[a] == s.blocks[a].(next := None)))
    && (forall i :: 0 <= i < |rest| ==> rest[i] in s.blocks && s'.blocks[rest[i]] == s.blocks[rest[i]])
    && s'.doomed == rest && s'.mutator == Freeing(op, r, orv, HeadOf(rest))
    && s'.data == s.data && s'.owner == s.owner && s'.garbage == s.garbage
    && s'.mgr == s.mgr && s'.committed == s.committed && s'.seen == s.seen
    && s'.walks == s.walks && s'.held == s.held
  }

  lemma ChainDistinct(s: State, chain: seq<Addr>, i: nat, j: nat)
    requires Decreasing(s, chain) && i < |chain| && j < |chain| && i != j
    ensures chain[i] != chain[j]
  {
    if i < j { assert s.blocks[chain[i]].ts > s.blocks[chain[j]].ts; } else { assert s.blocks[chain[j]].ts > s.blocks[chain[i]].ts; }
  }

  lemma RefChain(s: State, r: Addr)
    requires r in s.refs && RefOk(s, r)
    ensures Decreasing(s, s.refs[r].chain) && r !in s.refs[r].chain && r in s.blocks
  {
  }

  lemma CutChain(s: State, b: map<Addr, Block>, chain: seq<Addr>, k: nat)
    requires Decreasing(s, chain) && k < |chain| && b == s.blocks[chain[k] := s.blocks[chain[k]].(next := None)]
    ensures forall j :: 0 <= j < |chain| ==>
              chain[j] in b && b[chain[j]] == if j == k then s.blocks[chain[j]].(next := None) else s.blocks[chain[j]]
  {
    forall j | 0 <= j < |chain| && j != k ensures b[chain[j]] == s.blocks[chain[j]] {
      ChainDistinct(s, chain, j, k);
    }
  }

  lemma CutShapeIntro(s: State, s': State, r: Addr, orv: nat, k: nat)
    requires r in s.refs && r in s'.refs && s'.refs[r].hist == s.refs[r].hist && s'.data == s.data
    requires Decreasing(s, s.refs[r].chain) && r !in s.refs[r].chain && r in s.blocks
    requires k < |s.refs[r].chain| && s'.refs[r].chain == s.refs[r].chain[..k + 1]
    requires s.refs[r].chain[k] in s.blocks && s.blocks[s.refs[r].chain[k]].ts <= orv
    requires s'.blocks == s.blocks[s.refs[r].chain[k] := s.blocks[s.refs[r].chain[k]].(next := None)]
    ensures CutShape(s, s', r, orv, k)
    ensures forall i :: k < i < |s.refs[r].chain| ==>
              && s.refs[r].chain[i] in s.blocks && s.refs[r].chain[i] in s'.blocks
              && s'.blocks[s.refs[r].chain[i]] == s.blocks[s.refs[r].chain[i]]
  {
    CutChain(s, s'.blocks, s.refs[r].chain, k);
  }

  lemma CutRest(s: State, s': State, r: Addr, k: nat, rest: seq<Addr>)
    requires r in s.refs && r in s'.refs && k < |s.refs[r].chain|
    requires rest == s.refs[r].chain[k + 1..] && s'.refs[r].chain == s.refs[r].chain[..k + 1]
    requires forall i :: k < i < |s.refs[r].chain| ==>
              && s.refs[r].chain[i] in s.blocks && s.refs[r].chain[i] in s'.blocks
              && s'.blocks[s.refs[r].chain[i]] == s.blocks[s.refs[r].chain[i]]
    ensures s.refs[r].chain == s'.refs[r].chain + rest
    ensures forall i :: 0 <= i < |rest| ==>
              rest[i] in s.blocks && rest[i] in s'.blocks && s'.blocks[rest[i]] == s.blocks[rest[i]]
  {
    assert forall i :: 0 <= i < |rest| ==> rest[i] == s.refs[r].chain[k + 1 + i];
  }

  lemma SameShape(s: State, s': State, r: Addr, orv: nat)
    requires r in s.refs && r in s'.refs && s'.refs[r].hist == s.refs[r].hist && s'.data == s.data
    requires Decreasing(s, s.refs[r].chain) && r in s.blocks
    requires s'.refs[r].chain == s.refs[r].chain && s'.blocks == s.blocks
    ensures CutShape(s, s', r, orv, |s.refs[r].chain|)
  {
  }

  lemma CutLooks(s: State, op: Op, r: Addr, orv: nat, k: nat)
    requires s.role.Keys == s.blocks.Keys && r in s.refs && Decreasing(s, s.refs[r].chain)
    requires r !in s.refs[r].chain && r in s.blocks && k < |s.refs[r].chain|
    requires s.refs[r].chain[k] in s.blocks && s.blocks[s.refs[r].chain[k]].ts <= orv
    requires forall i :: 0 <= i < k ==> s.refs[r].chain[i] in s.blocks && s.blocks[s.refs[r].chain[i]].ts > orv
    ensures var s' := CutAt(s, op, r, orv, k); StartShape(s, s', op, r, orv, k, s'.doomed)
  {
    hide CutShape, Decreasing, CutAt, Larger, StartShape, HeadOf;
    var s' := CutAt(s, op, r, orv, k);
    CutFields(s, op, r, orv, k);
    CutRoles(s, op, r, orv, k);
    CutShapeIntro(s, s', r, orv, k);
    CutRest(s, s', r, k, s'.doomed);
    CutIsStart(s, s', op, r, orv, k);
  }

  lemma CutIsStart(s: State, s': State, op: Op, r: Addr, orv: nat, k: nat)
    requires r in s.refs && k < |s.refs[r].chain| && s.refs[r].chain[k] in s.blocks
    requires forall i :: 0 <= i < k ==> s.refs[r].chain[i] in s.blocks && s.blocks[s.refs[r].chain[i]].ts > orv
    requires s'.mutator == Freeing(op, r, orv, HeadOf(s'.doomed))
    requires s'.refs == s.refs[r := Ref(s.refs[r].hist, s.refs[r].chain[..k + 1], Larger(s.refs[r].floor, orv))]
    requires s'.blocks == s.blocks[s.refs[r].chain[k] := s.blocks[s.refs[r].chain[k]].(next := None)]
    requires s'.blocks.Keys == s.blocks.Keys && s'.data == s.data && s'.owner == s.owner && s'.garbage == s.garbage
    requires s'.mgr == s.mgr && s'.committed == s.committed && s'.seen == s.seen && s'.walks == s.walks && s'.held == s.held
    requires s'.role.Keys == s.role.Keys && forall a :: a in s.role ==> s'.role[a] == if a in s'.doomed then Doomed else s.role[a]
    requires CutShape(s, s', r, orv, k) && s.refs[r].chain == s'.refs[r].chain + s'.doomed
    requires forall i :: 0 <= i < |s'.doomed| ==>
               s'.doomed[i] in s.blocks && s'.doomed[i] in s'.blocks && s'.blocks[s'.doomed[i]] == s.blocks[s'.doomed[i]]
    ensures StartShape(s, s', op, r, orv, k, s'.doomed)
  {
    hide CutShape, Larger, HeadOf;
    assert s'.refs.Keys == s.refs.Keys;
  }

  lemma CutFields(s: State, op: Op, r: Addr, orv: nat, k: nat)
    requires r in s.refs && r in s.blocks && k < |s.refs[r].chain| && s.refs[r].chain[k] in s.blocks
    ensures var s', R, cut := CutAt(s, op, r, orv, k), s.refs[r], s.refs[r].chain[k];
            && s'.doomed == R.chain[k + 1..] && s'.mutator == Freeing(op, r, orv, HeadOf(s'.doomed))
            && s'.refs == s.refs[r := Ref(R.hist, R.chain[..k + 1], Larger(R.floor, orv))]
            && s'.blocks == s.blocks[cut := s.blocks[cut].(next := None)] && s'.blocks.Keys == s.blocks.Keys
            && s'.data == s.data && s'.owner == s.owner && s'.garbage == s.garbage
            && s'.mgr == s.mgr && s'.committed == s.committed && s'.seen == s.seen
            && s'.walks == s.walks && s'.held == s.held
  {
    hide Retag, Larger;
  }

  lemma CutRoles(s: State, op: Op, r: Addr, orv: nat, k: nat)
    requires s.role.Keys == s.blocks.Keys && r in s.refs && k < |s.refs[r].chain| && s.refs[r].chain[k] in s.blocks
    requires Decreasing(s, s.refs[r].chain)
    ensures var s' := CutAt(s, op, r, orv, k);
            s'.role.Keys == s.role.Keys && forall a :: a in s.role ==> s'.role[a] == if a in s'.doomed then Doomed else s.role[a]
  {
    hide Larger;
  }

  lemma StartLooks(s: State, op: Op, r: Addr, orv: nat) returns (k: nat)
    requires Linked(s, r) && s.role.Keys == s.blocks.Keys && (r in s.refs ==> RefOk(s, r))
    ensures var s' := DoStart(s, op, r, orv); StartShape(s, s', op, r, orv, k, s'.doomed)
  {
    hide RefOk, CutShape, Decreasing, CutAt;
    var s' := DoStart(s, op, r, orv);
    k := CutFrom(s, ChainAt(s, r), orv, 0);
    hide CutFrom, Linked;
    if k < |ChainAt(s, r)| {
      hide StartShape;
      RefChain(s, r);
      CutLooks(s, op, r, orv, k);
    } else if r in s.refs {
      RefChain(s, r);
      SameShape(s, s', r, orv);
    }
  }

  lemma StartData(s: State, s': State, op: Op, r: Addr, orv: nat, k: nat, rest: seq<Addr>)
    requires StartShape(s, s', op, r, orv, k, rest) && DataOk(s)
    ensures DataOk(s')
  {
    hide CutShape;
    assert forall a :: a in s.blocks ==> s'.blocks[a].data == s.blocks[a].data;
  }

  lemma StartPool(s: State, s': State, op: Op, r: Addr, orv: nat, k: nat, rest: seq<Addr>)
    requires StartShape(s, s', op, r, orv, k, rest)
    requires PoolOk(s) && s.doomed == [] && (r in s.refs ==> RefOk(s, r))
    ensures PoolOk(s')
  {
    hide CutShape, RefOk, RoleOk;
    forall a | a in rest ensures a in s.role && s.role[a].ChainOf? {
      RestRole(s, s', op, r, orv, k, rest, a);
    }
    forall a | a in s'.role ensures RoleOk(s', a) { StartRole(s, s', op, r, orv, k, rest, a); }
  }

  lemma RestRole(s: State, s': State, op: Op, r: Addr, orv: nat, k: nat, rest: seq<Addr>, a: Addr)
    requires StartShape(s, s', op, r, orv, k, rest) && (r in s.refs ==> RefOk(s, r)) && a in rest
    ensures r in s.refs && a in s.role && s.role[a] == ChainOf(r)
  {
    hide CutShape, RefOk;
    var i :| 0 <= i < |rest| && rest[i] == a;
    assert s.refs[r].chain[|s'.refs[r].chain| + i] == a;
    ChainRole(s, r, |s'.refs[r].chain| + i);
  }

  lemma StartRole(s: State, s': State, op: Op, r: Addr, orv: nat, k: nat, rest: seq<Addr>, a: Addr)
    requires StartShape(s, s', op, r, orv, k, rest) && s.doomed == [] && a in s.role && RoleOk(s, a)
    ensures RoleOk(s', a)
  {
    hide CutShape;
    if s.role[a] == ChainOf(r) && a !in rest {
      assert a in s'.refs[r].chain + rest;
    }
  }

  lemma ChainRole(s: State, r: Addr, i: nat)
    requires r in s.refs && RefOk(s, r) && i < |s.refs[r].chain|
    ensures s.refs[r].chain[i] in s.role && s.role[s.refs[r].chain[i]] == ChainOf(r)
  {
  }

  lemma StartDoomed(s: State, s': State, op: Op, r: Addr, orv: nat, k: nat, rest: seq<Addr>)
    requires StartShape(s, s', op, r, orv, k, rest) && (r in s.refs ==> RefInv(s, r))
    ensures DoomedOk(s')
  {
    hide CutShape, RefInv, Linked, Decreasing;
    if r in s.refs {
      ChainFacts(s, r);
      TailDecreases(s, s', s.refs[r].chain, s'.refs[r].chain, rest);
      forall i | 0 <= i < |rest|
        ensures rest[i] in s'.role && s'.role[rest[i]] == Doomed && rest[i] in s'.blocks
        ensures s'.blocks[rest[i]].next == Following(rest, i)
      {
        TailFollows(s, s.refs[r].chain, s'.refs[r].chain, rest, i);
      }
    } else {
      TailDecreases(s, s', [], [], rest);
    }
  }

  lemma TailDecreases(s: State, s': State, chain: seq<Addr>, kept: seq<Addr>, rest: seq<Addr>)
    requires chain == kept + rest && (chain != [] ==> Decreasing(s, chain))
    requires forall i :: 0 <= i < |rest| ==> rest[i] in s.blocks && rest[i] in s'.blocks && s'.blocks[rest[i]] == s.blocks[rest[i]]
    ensures Decreasing(s', rest)
  {
    assert forall i :: 0 <= i < |rest| ==> chain[|kept| + i] == rest[i];
  }

  lemma ChainFacts(s: State, r: Addr)
    requires r in s.refs && RefInv(s, r)
    ensures Decreasing(s, s.refs[r].chain)
    ensures var chain := s.refs[r].chain;
      forall j :: 0 <= j < |chain| ==> chain[j] in s.blocks && s.blocks[chain[j]].next == Following(chain, j) && chain[j] in s.role
  {
    hide Faithful, TombOk, HistOk, Decreasing, TM.SafeBound;
  }

  /** In a linked chain the blocks of the tail follow each other. */
  lemma TailFollows(s: State, chain: seq<Addr>, kept: seq<Addr>, rest: seq<Addr>, i: nat)
    requires chain == kept + rest && i < |rest|
    requires forall j :: 0 <= j < |chain| ==> chain[j] in s.blocks && s.blocks[chain[j]].next == Following(chain, j)
    ensures rest[i] == chain[|kept| + i] && rest[i] in s.blocks && s.blocks[rest[i]].next == Following(rest, i)
  {
    assert i + 1 < |rest| ==> rest[i + 1] == chain[|kept| + i + 1];
  }

  lemma StartLinked(s: State, s': State, op: Op, r: Addr, orv: nat, k: nat, rest: seq<Addr>)
    requires StartShape(s, s', op, r, orv, k, rest) && r in s.refs && Linked(s, r)
    ensures Linked(s', r)
  {
    var chain, kept := s.refs[r].chain, s'.refs[r].chain;
    forall i | 0 <= i < |kept| ensures kept[i] in s'.blocks && s'.blocks[kept[i]].next == Following(kept, i) {
      assert kept[i] == chain[i];
      assert s.blocks[chain[i]].next == Following(chain, i);
      if i + 1 < |kept| { assert kept[i + 1] == chain[i + 1]; }
    }
  }

  lemma StartRoles(s: State, s': State, op: Op, r: Addr, orv: nat, k: nat, rest: seq<Addr>)
    requires StartShape(s, s', op, r, orv, k, rest) && r in s.refs && RefOk(s, r)
    ensures Decreasing(s', s'.refs[r].chain) && r !in rest
    ensures forall j :: 0 <= j < |s'.refs[r].chain| ==> s'.refs[r].chain[j] !in rest
  {
    hide StartShape, Decreasing, RefOk;
    StartTimes(s, s', op, r, orv, k, rest);
    var chain, kept := s.refs[r].chain, s'.refs[r].chain;
    RootApart(s, r, kept, rest);
    KeptDecreases(s, s', r, chain, kept, rest);
    KeptApart(s, chain, kept, rest);
  }

  lemma RootApart(s: State, r: Addr, kept: seq<Addr>, rest: seq<Addr>)
    requires r in s.refs && RefOk(s, r) && s.refs[r].chain == kept + rest
    ensures r !in rest && Decreasing(s, s.refs[r].chain)
  {
    hide Linked, HistOk, TM.SafeBound, Decreasing;
    forall i | 0 <= i < |rest| ensures rest[i] != r {
      assert rest[i] == s.refs[r].chain[|kept| + i];
    }
  }

  lemma StartTimes(s: State, s': State, op: Op, r: Addr, orv: nat, k: nat, rest: seq<Addr>)
    requires StartShape(s, s', op, r, orv, k, rest)
    ensures s'.blocks.Keys == s.blocks.Keys && forall a :: a in s.blocks ==> s'.blocks[a].ts == s.blocks[a].ts
    ensures r in s.refs ==> r in s'.refs && s.refs[r].chain == s'.refs[r].chain + rest
  {
    hide CutShape;
  }

  lemma KeptApart(s: State, chain: seq<Addr>, kept: seq<Addr>, rest: seq<Addr>)
    requires chain == kept + rest && Decreasing(s, chain)
    ensures forall j :: 0 <= j < |kept| ==> kept[j] !in rest
  {
    hide Decreasing;
    forall j | 0 <= j < |kept| ensures kept[j] !in rest {
      forall i | 0 <= i < |rest| ensures rest[i] != kept[j] { ChainDistinct(s, chain, j, |kept| + i); }
    }
  }

  lemma KeptDecreases(s: State, s': State, r: Addr, chain: seq<Addr>, kept: seq<Addr>, rest: seq<Addr>)
    requires chain == kept + rest && Decreasing(s, chain) && s'.blocks.Keys == s.blocks.Keys
    requires forall a :: a in s.blocks ==> s'.blocks[a].ts == s.blocks[a].ts
    ensures Decreasing(s', kept)
  {
    assert forall j :: 0 <= j < |kept| ==> kept[j] == chain[j];
  }

  lemma StartTomb(s: State, s': State, r: Addr, orv: nat, k: nat)
    requires CutShape(s, s', r, orv, k) && Decreasing(s, s.refs[r].chain) && TombOk(s, r)
    requires s.mutator.Idle? && s'.mutator.Freeing? && s'.garbage == s.garbage
    ensures TombOk(s', r)
  {
    var chain, kept := s.refs[r].chain, s'.refs[r].chain;
    if |kept| < |chain| { assert s.blocks[chain[|kept| - 1]].ts > s.blocks[chain[|chain| - 1]].ts; }
  }

  lemma StartRef(s: State, s': State, op: Op, r: Addr, orv: nat, k: nat, rest: seq<Addr>)
    requires StartShape(s, s', op, r, orv, k, rest) && r in s.refs && RefInv(s, r)
    requires TM.SafeBound(s.mgr, orv) && s.mutator.Idle?
    ensures r in s'.refs && RefInv(s', r) && CutDone(s', r, orv)
  {
    hide TombOk, Linked, Faithful, RefOk, CutDone, TM.SafeBound, CutShape;
    StartRefOk(s, s', op, r, orv, k, rest);
    StartCut(s, s', op, r, orv, k, rest);
    RefChain(s, r);
    StartTomb(s, s', r, orv, k);
    StartFaithful(s, s', op, r, orv, k, rest);
  }

  lemma StartRefOk(s: State, s': State, op: Op, r: Addr, orv: nat, k: nat, rest: seq<Addr>)
    requires StartShape(s, s', op, r, orv, k, rest) && r in s.refs && RefOk(s, r) && TM.SafeBound(s.mgr, orv)
    ensures r in s'.refs && RefOk(s', r)
  {
    hide Linked, Decreasing;
    var chain, kept := s.refs[r].chain, s'.refs[r].chain;
    StartLinked(s, s', op, r, orv, k, rest);
    StartRoles(s, s', op, r, orv, k, rest);
    SameWritten(s, s');
    forall i | 0 <= i < |kept| ensures kept[i] in s'.role && s'.role[kept[i]] == ChainOf(r) {
      assert kept[i] == chain[i];
    }
  }

  lemma StartCut(s: State, s': State, op: Op, r: Addr, orv: nat, k: nat, rest: seq<Addr>)
    requires StartShape(s, s', op, r, orv, k, rest) && r in s.refs
    ensures r in s'.refs && CutDone(s', r, orv)
  {
    forall i | 0 <= i < |s'.refs[r].chain| - 1 ensures s'.refs[r].chain[i] == s.refs[r].chain[i] {}
  }

  lemma StartFaithful(s: State, s': State, op: Op, r: Addr, orv: nat, k: nat, rest: seq<Addr>)
    requires StartShape(s, s', op, r, orv, k, rest) && r in s.refs && RefInv(s, r)
    ensures Faithful(s', r)
  {
    forall v: nat, i: nat | s'.refs[r].floor <= v ensures FaithfulAt(s', r, v, i) {
      CutStops(s, s', r, orv, k, v, i);
      assert FaithfulAt(s, r, v, i);
    }
  }

  lemma StartSafe(s: State, op: Op, r: Addr, orv: nat)
    requires Inv(s) && Ready(s, LStart(op, r, orv))
    ensures Defined(s, LStart(op, r, orv)) && Inv(Apply(s, LStart(op, r, orv)))
  {
    StartDefined(s, op, r, orv);
    StartKeeps(s, op, r, orv);
  }

  lemma StartDefined(s: State, op: Op, r: Addr, orv: nat)
    requires PoolOk(s) && RefsOk(s) && CallOk(s, op, r, orv)
    ensures Linked(s, r) && r in s.role && !s.role[r].ChainOf? && (r in s.refs ==> RefInv(s, r))
    ensures r in s.refs || s.role[r].Zombie?
  {
    if r in s.refs { RefInvOf(s, r); }
  }

  lemma StartKeeps(s: State, op: Op, r: Addr, orv: nat)
    requires Inv(s) && s.mutator.Idle? && CallOk(s, op, r, orv) && Linked(s, r)
    ensures Inv(DoStart(s, op, r, orv))
  {
    hide RefsOk, PoolOk, DataOk, DoomedOk, ReadersOk, TM.Inv, DoStart, Faithful, RefOk, TombOk, CutShape, SeenOk;
    var s' := DoStart(s, op, r, orv);
    SafeOrv(s, op, r, orv);
    StartDefined(s, op, r, orv);
    PoolKeys(s);
    var k := StartLooks(s, op, r, orv);
    var rest := s'.doomed;
    IdleDoomed(s);
    StartPool(s, s', op, r, orv, k, rest);
    StartData(s, s', op, r, orv, k, rest);
    StartDoomed(s, s', op, r, orv, k, rest);
    StartElsewhere(s, s', op, r, orv, k, rest);
    if r in s.refs {
      StartRef(s, s', op, r, orv, k, rest);
      CutReaders(s, s', r, orv, k);
    }
    LocalStep(s, s', r);
    StartMutator(s, s', op, r, orv, k, rest);
  }

  lemma PoolKeys(s: State)
    requires PoolOk(s)
    ensures s.role.Keys == s.blocks.Keys
  {
  }

  lemma IdleDoomed(s: State)
    requires DoomedOk(s) && !s.mutator.Freeing?
    ensures s.doomed == []
  {
  }

  lemma StartElsewhere(s: State, s': State, op: Op, r: Addr, orv: nat, k: nat, rest: seq<Addr>)
    requires StartShape(s, s', op, r, orv, k, rest) && s.mutator.Idle? && (r in s.refs ==> RefInv(s, r))
    ensures SameElsewhere(s, s', r) && SameZombies(s, s') && (r !in s.refs ==> ReadersOfKept(s, s', r))
  {
    var chain := ChainAt(s, r);
    forall a | a in s.role && s.role[a] != ChainOf(r) && a in s.blocks ensures SameBlock(s, s', a) {
      if r in s.refs {
        assert a !in chain;
        assert forall i :: 0 <= i < |rest| ==> rest[i] == chain[|s'.refs[r].chain| + i];
      }
    }
  }

  lemma StartMutator(s: State, s': State, op: Op, r: Addr, orv: nat, k: nat, rest: seq<Addr>)
    requires StartShape(s, s', op, r, orv, k, rest) && CallOk(s, op, r, orv)
    requires r in s.role && TM.SafeBound(s.mgr, orv) && (r in s.refs ==> RefInv(s', r) && CutDone(s', r, orv))
    ensures MutatorOk(s')
  {
    hide RefInv, StopsAt;
    assert WriterTx(s, if op.Collect? then TM.Tx(0, 0, 0, TM.ReadOnly) else op.writer) ==> true;
  }

  // ---- freeing what was cut off

  lemma RootRole(s: State)
    requires PoolOk(s) && RefsOk(s) && MutatorOk(s) && !s.mutator.Idle?
    ensures s.mutator.root in s.role && s.mutator.root in s.blocks
    ensures s.role[s.mutator.root].RootOf? || s.role[s.mutator.root].Zombie?
  {
    hide Faithful, TombOk;
    if s.mutator.root in s.refs { assert RefOk(s, s.mutator.root); }
  }

  lemma DoomedHead(s: State)
    requires DoomedOk(s) && PoolOk(s) && s.mutator.Freeing? && s.mutator.cursor.Some?
    ensures s.doomed != [] && s.mutator.cursor.value == s.doomed[0] && s.doomed[0] in s.blocks
    ensures s.doomed[0] in s.role && s.role[s.doomed[0]] == Doomed
    ensures s.blocks[s.doomed[0]].next == Following(s.doomed, 0)
  {
  }

  lemma FreeOneSafe(s: State)
    requires Inv(s) && Ready(s, LFreeOne)
    ensures Defined(s, LFreeOne) && Inv(Apply(s, LFreeOne))
  {
    hide RefsOk, PoolOk, DataOk, DoomedOk, ReadersOk, TM.Inv, SeenOk, MutatorOk, DoFreeOne;
    DoomedHead(s);
    FreeReadable(s);
    FreeOneKeeps(s);
  }

  lemma FreeReadable(s: State)
    requires DataOk(s) && s.mutator.Freeing? && s.mutator.cursor.Some? && s.mutator.cursor.value in s.blocks
    ensures Readable(s, s.mutator.cursor.value)
  {
  }

  lemma FreeOneKeeps(s: State)
    requires Inv(s) && Ready(s, LFreeOne) && Readable(s, s.mutator.cursor.value)
    ensures Inv(DoFreeOne(s))
  {
    hide RefsOk, PoolOk, DataOk, DoomedOk, ReadersOk, TM.Inv, SeenOk, MutatorOk, DoFreeOne, AllSame;
    var s' := DoFreeOne(s);
    DoomedHead(s);
    RootRole(s);
    FreeOneSame(s);
    KeepAll(s, s');
    FreeOnePool(s);
    FreeOneData(s);
    FreeOneDoomed(s);
    FreeOneMutator(s);
  }

  lemma FreeOneSame(s: State)
    requires DataOk(s) && s.mutator.Freeing? && s.mutator.cursor.Some? && Readable(s, s.mutator.cursor.value)
    requires s.mutator.cursor.value in s.role && s.role[s.mutator.cursor.value] == Doomed
    ensures AllSame(s, DoFreeOne(s))
    ensures DoFreeOne(s).garbage == s.garbage
    ensures forall r :: Consolidating(s, r) ==> Consolidating(DoFreeOne(s), r)
  {
  }

  lemma FreeOnePool(s: State)
    requires PoolOk(s) && s.mutator.Freeing? && s.mutator.cursor.Some? && Readable(s, s.mutator.cursor.value)
    requires s.doomed != [] && s.mutator.cursor.value == s.doomed[0] && s.doomed[0] in s.role && s.role[s.doomed[0]] == Doomed
    ensures PoolOk(DoFreeOne(s))
  {
    var s' := DoFreeOne(s);
    assert s.doomed == [s.doomed[0]] + s.doomed[1..];
    forall a | a in s'.role ensures RoleOk(s', a) { assert RoleOk(s, a); }
  }

  lemma FreeOneData(s: State)
    requires DataOk(s) && s.mutator.Freeing? && s.mutator.cursor.Some? && Readable(s, s.mutator.cursor.value)
    ensures DataOk(DoFreeOne(s))
  {
  }

  lemma FreeOneDoomed(s: State)
    requires DoomedOk(s) && s.mutator.Freeing? && s.mutator.cursor.Some? && Readable(s, s.mutator.cursor.value)
    requires s.doomed != [] && s.mutator.cursor.value == s.doomed[0]
    requires s.blocks[s.doomed[0]].next == Following(s.doomed, 0)
    ensures DoomedOk(DoFreeOne(s))
  {
    var s' := DoFreeOne(s);
    var d := s.doomed;
    forall i | 0 <= i < |s'.doomed|
      ensures s'.doomed[i] in s'.blocks && s'.blocks[s'.doomed[i]] == s.blocks[d[i + 1]]
      ensures s'.doomed[i] in s'.role && s'.role[s'.doomed[i]] == Doomed
      ensures s'.blocks[s'.doomed[i]].next == Following(s'.doomed, i)
    {
      ChainDistinct(s, d, 0, i + 1);
      assert s.blocks[d[i + 1]].next == Following(d, i + 1);
    }
  }

  lemma FreeOneMutator(s: State)
    requires MutatorOk(s) && s.mutator.Freeing? && s.mutator.cursor.Some? && Readable(s, s.mutator.cursor.value)
    requires RefsOk(s) && s.mutator.cursor.value in s.role && s.role[s.mutator.cursor.value] == Doomed
    requires s.mutator.root in s.role && !s.role[s.mutator.root].Doomed?
    ensures MutatorOk(DoFreeOne(s))
  {
    hide Faithful, TombOk, Linked;
    var r, s' := s.mutator.root, DoFreeOne(s);
    assert ChainAt(s', r) == ChainAt(s, r);
    assert CallInProgress(s', s.mutator.op, r, s.mutator.orv);
    if r in s.refs {
      var chain := s.refs[r].chain;
      assert RefOk(s, r);
      assert forall i :: 0 <= i < |chain| ==> chain[i] in s'.blocks && s'.blocks[chain[i]] == s.blocks[chain[i]];
    }
  }
}
