/**
 * The cascading gather: threads that reach the sources of a reference table level by level between barriers.
 *
 * Every thread runs the same phases, one for each barrier it has passed: 0 scans its own sources for roots, 1 collects
 * the other threads' tables, 2 joins the roots, 3 + 2r processes the sources whose target is in round r, and
 * 4 + 2r joins the next frontiers.
 */
module CascadingGather {
  import BitTables
  import Options
  import opened Graphs
  import opened ReferenceChains

  /**
   * The reference table, the entities that have the gathered components, and the sources of every thread in scan
   * order.
   */
  datatype Config = Config(refs: map<nat, nat>, data: set<nat>, own: seq<seq<nat>>)

  /** `blocks` are the blocks of the thread's temporary tables. */
  datatype Thread = Thread(phase: nat, arrived: bool, pos: nat, done: bool, current: set<nat>, next: set<nat>, black: set<nat>,
                           blocks: set<nat>)

  /** `tickets` counts arrivals at the barrier; `log` counts how often a source was processed in a round. */
  datatype State = State(threads: seq<Thread>, tickets: nat, log: multiset<(nat, nat)>)

  function BlockOf(id: nat): nat { id / BitTables.BLOCK_SIZE }

  /** Every source belongs to one thread, together with all sources of its block. */
  ghost predicate Partition(c: Config) {
    && c.own != [] && (forall t :: 0 <= t < |c.own| ==> Distinct(c.own[t]))
    && (forall t, i :: 0 <= t < |c.own| && 0 <= i < |c.own[t]| ==> c.own[t][i] in c.refs)
    && (forall s :: s in c.refs ==> exists t :: 0 <= t < |c.own| && s in c.own[t])
    && (forall t, u, i, j :: 0 <= t < |c.own| && 0 <= u < |c.own| && t != u && 0 <= i < |c.own[t]| && 0 <= j < |c.own[u]| ==>
          BlockOf(c.own[t][i]) != BlockOf(c.own[u][j]))
  }

  ghost predicate Start(c: Config, s: State) {
    && |s.threads| == |c.own| && s.tickets == 0 && s.log == multiset{}
    && forall t :: 0 <= t < |s.threads| ==> s.threads[t] == Thread(0, false, 0, false, {}, {}, {}, {})
  }

  // ---- steps

  predicate IsScan(phase: nat) { phase >= 3 && phase % 2 == 1 }
  predicate IsJoin(phase: nat) { phase >= 4 && phase % 2 == 0 }
  function Round(phase: nat): nat { if phase < 3 then 0 else (phase - 3) / 2 }

  /** The number of sub-steps of a phase. */
  function Length(c: Config, t: nat, phase: nat): nat
    requires t < |c.own|
  {
    if phase == 0 then |c.own[t]| else if phase == 1 then 0 else if phase == 2 then 2 * |c.own|
    else if IsScan(phase) then |c.own[t]| + 1 else |c.own| + 1
  }

  /** One source of find_roots_and_blacklist. */
  function FindRoot(refs: map<nat, nat>, source: nat, roots: set<nat>, black: set<nat>): (set<nat>, set<nat>)
    requires source in refs
  {
    var black' := black + {source};
    var roots' := roots - {source};
    (if refs[source] in black' then roots' else roots' + {refs[source]}, black')
  }

  /** One source of gather: a target with data puts the source, and with it its block, into the temporary tables. */
  function Gather(c: Config, source: nat, blocks: set<nat>): set<nat>
    requires source in c.refs
  {
    if c.refs[source] in c.data then blocks + {BlockOf(source)} else blocks
  }

  /** The test of build_fdb_bcluster_from_refs: the source's block is in the tables, its target in the frontier. */
  predicate Reached(c: Config, source: nat, blocks: set<nat>, frontier: set<nat>) {
    source in c.refs && BlockOf(source) in blocks && c.refs[source] in frontier
  }

  /** What sub-step `pos` of the phase does to the thread's own tables. */
  function Work(c: Config, s: State, t: nat): Thread
    requires t < |c.own| && |s.threads| == |c.own| && Partition(c)
    requires s.threads[t].pos < Length(c, t, s.threads[t].phase)
  {
    var me, n := s.threads[t], |c.own|;
    var moved := me.(pos := me.pos + 1);
    if me.phase == 0 then
      var (roots, black) := FindRoot(c.refs, c.own[t][me.pos], me.next, me.black);
      moved.(next := roots, black := black, blocks := Gather(c, c.own[t][me.pos], me.blocks))
    else if me.phase == 2 then
      if me.pos < n then moved.(current := me.current + s.threads[me.pos].next)
      else moved.(current := me.current - s.threads[me.pos - n].black)
    else if IsScan(me.phase) then
      if me.pos == 0 then moved.(next := {})
      else if Reached(c, c.own[t][me.pos - 1], me.blocks, me.current) then moved.(next := me.next + {c.own[t][me.pos - 1]})
      else moved
    else
      if me.pos == 0 then moved.(current := {})
      else moved.(current := me.current + s.threads[me.pos - 1].next)
  }

  /** The source processed by the next sub-step, if any, with its round. */
  function Processed(c: Config, me: Thread, t: nat): multiset<(nat, nat)>
    requires t < |c.own|
  {
    if IsScan(me.phase) && 0 < me.pos <= |c.own[t]| && Reached(c, c.own[t][me.pos - 1], me.blocks, me.current)
    then multiset{(c.own[t][me.pos - 1], Round(me.phase) + 1)} else multiset{}
  }

  predicate Enabled(c: Config, s: State, t: nat) {
    && t < |c.own| && |s.threads| == |c.own| && !s.threads[t].done
    && (s.threads[t].arrived ==> s.tickets >= (s.threads[t].phase + 1) * |c.own|)
  }

  function Step(c: Config, s: State, t: nat): State
    requires Enabled(c, s, t) && Partition(c)
  {
    var me := s.threads[t];
    if me.arrived then
      s.(threads := s.threads[t := me.(phase := me.phase + 1, arrived := false, pos := 0)])
    else if IsScan(me.phase) && me.pos == 0 && me.current == {} then
      s.(threads := s.threads[t := me.(done := true)])
    else if me.pos < Length(c, t, me.phase) then
      s.(threads := s.threads[t := Work(c, s, t)], log := s.log + Processed(c, me, t))
    else
      s.(threads := s.threads[t := me.(arrived := true)], tickets := s.tickets + 1)
  }

  // ---- what the tables hold at every point

  function Roots(refs: map<nat, nat>, sources: seq<nat>): set<nat> {
    (set s | s in sources && s in refs :: refs[s]) - Entities(sources)
  }

  function Entities(sources: seq<nat>): set<nat> {
    set s | s in sources
  }

  /** The blocks that have a source whose target has data. */
  ghost function BlocksOf(c: Config, sources: seq<nat>): set<nat> {
    set s | s in sources && s in c.refs && c.refs[s] in c.data :: BlockOf(s)
  }

  /** The sources that are looked at: those in a block with a source whose target has data. */
  ghost function Looked(c: Config): set<nat> {
    set s | s in c.refs && exists q :: q in c.refs && BlockOf(q) == BlockOf(s) && c.refs[q] in c.data
  }

  ghost function Share(c: Config, t: nat, upTo: nat, k: nat): set<nat>
    requires t < |c.own| && upTo <= |c.own[t]|
  {
    set s | s in c.own[t][..upTo] && s in Level(c.refs, Looked(c), k)
  }

  ghost function SharesBefore(c: Config, n: nat, k: nat): set<nat>
    requires n <= |c.own|
  {
    set t, s | 0 <= t < n && s in c.own[t] && s in Level(c.refs, Looked(c), k) :: s
  }

  ghost function RootsBefore(c: Config, n: nat): set<nat>
    requires n <= |c.own|
  {
    set t, s | 0 <= t < n && s in Roots(c.refs, c.own[t]) :: s
  }

  ghost function SourcesBefore(c: Config, n: nat): set<nat>
    requires n <= |c.own|
  {
    set t, s | 0 <= t < n && s in c.own[t] :: s
  }

  ghost function Next(c: Config, t: nat, phase: nat, pos: nat): set<nat>
    requires t < |c.own| && pos <= Length(c, t, phase)
  {
    if phase == 0 then Roots(c.refs, c.own[t][..pos])
    else if phase < 3 || (phase == 3 && pos == 0) then Roots(c.refs, c.own[t])
    else if IsScan(phase) then
      if pos == 0 then Share(c, t, |c.own[t]|, Round(phase)) else Share(c, t, pos - 1, Round(phase) + 1)
    else Share(c, t, |c.own[t]|, Round(phase) + 1)
  }

  ghost function Black(c: Config, t: nat, phase: nat, pos: nat): set<nat>
    requires t < |c.own| && pos <= Length(c, t, phase)
  {
    Entities(if phase == 0 then c.own[t][..pos] else c.own[t])
  }

  ghost function Blocks(c: Config, t: nat, phase: nat, pos: nat): set<nat>
    requires t < |c.own| && pos <= Length(c, t, phase)
  {
    BlocksOf(c, if phase == 0 then c.own[t][..pos] else c.own[t])
  }

  ghost function Current(c: Config, t: nat, phase: nat, pos: nat): set<nat>
    requires t < |c.own| && pos <= Length(c, t, phase)
  {
    var n := |c.own|;
    if phase < 2 then {}
    else if phase == 2 then
      if pos <= n then RootsBefore(c, pos) else RootsBefore(c, n) - SourcesBefore(c, pos - n)
    else if IsScan(phase) || pos == 0 then Level(c.refs, Looked(c), Round(phase))
    else SharesBefore(c, pos - 1, Round(phase) + 1)
  }

  // ---- the invariant

  function Arrivals(me: Thread): nat { me.phase + if me.arrived then 1 else 0 }

  function TotalArrivals(threads: seq<Thread>): nat {
    if threads == [] then 0 else TotalArrivals(threads[..|threads| - 1]) + Arrivals(threads[|threads| - 1])
  }

  /** A thread past phase `k` means that everybody arrived at the end of phase `k - 1`. */
  ghost predicate Together(threads: seq<Thread>) {
    forall t, u :: 0 <= t < |threads| && 0 <= u < |threads| ==> threads[t].phase <= Arrivals(threads[u])
  }

  ghost predicate Holds(c: Config, t: nat, me: Thread)
    requires t < |c.own|
  {
    && me.pos <= Length(c, t, me.phase)
    && me.next == Next(c, t, me.phase, me.pos) && me.black == Black(c, t, me.phase, me.pos)
    && me.current == Current(c, t, me.phase, me.pos) && me.blocks == Blocks(c, t, me.phase, me.pos)
    && (me.arrived ==> me.pos == Length(c, t, me.phase) && !me.done)
    && (me.done ==> IsScan(me.phase) && me.pos == 0 && me.current == {})
    && (IsJoin(me.phase) || (IsScan(me.phase) && me.pos > 0) ==> Level(c.refs, Looked(c), Round(me.phase)) != {})
    && (IsScan(me.phase) && me.phase >= 5 ==> Level(c.refs, Looked(c), Round(me.phase) - 1) != {})
  }

  /** Thread `me` has got past source `i` of its scan in round `k`. */
  predicate Passed(me: Thread, i: nat, k: nat) {
    k > 0 && (me.phase > 1 + 2 * k || (me.phase == 1 + 2 * k && me.pos > i + 1))
  }

  ghost predicate Logged(c: Config, s: State, t: nat, i: nat, k: nat)
    requires t < |c.own| == |s.threads| && i < |c.own[t]|
  {
    s.log[(c.own[t][i], k)] == if Passed(s.threads[t], i, k) && c.own[t][i] in Level(c.refs, Looked(c), k) then 1 else 0
  }

  ghost predicate LogOk(c: Config, s: State)
    requires |c.own| == |s.threads|
  {
    && (forall t, i, k: nat {:trigger Logged(c, s, t, i, k)} :: 0 <= t < |c.own| && 0 <= i < |c.own[t]| ==> Logged(c, s, t, i, k))
    && (forall e :: e in s.log ==> e.0 in c.refs)
  }

  ghost predicate Inv(c: Config, s: State) {
    && Partition(c) && |s.threads| == |c.own|
    && s.tickets == TotalArrivals(s.threads) && Together(s.threads)
    && (forall t :: 0 <= t < |c.own| ==> Holds(c, t, s.threads[t]))
    && LogOk(c, s)
  }

  lemma StartInv(c: Config, s: State)
    requires Partition(c) && Start(c, s)
    ensures Inv(c, s)
  {
    hide Partition;
    NoArrivals(s.threads);
    forall t | 0 <= t < |c.own| ensures Holds(c, t, s.threads[t]) {
      assert c.own[t][..0] == [];
    }
  }

  lemma {:induction false} NoArrivals(threads: seq<Thread>)
    requires forall t :: 0 <= t < |threads| ==> Arrivals(threads[t]) == 0
    ensures TotalArrivals(threads) == 0
  {
    if threads != [] { NoArrivals(threads[..|threads| - 1]); }
  }

  lemma {:induction false} TotalChanges(threads: seq<Thread>, t: nat, me: Thread)
    requires t < |threads|
    ensures TotalArrivals(threads[t := me]) == TotalArrivals(threads) - Arrivals(threads[t]) + Arrivals(me)
  {
    var n := |threads| - 1;
    var changed := threads[t := me];
    if t < n {
      TotalChanges(threads[..n], t, me);
      assert changed[..n] == threads[..n][t := me];
    } else {
      assert changed[..n] == threads[..n];
    }
  }

  lemma {:induction false} AllArrived(threads: seq<Thread>, m: nat)
    requires forall t :: 0 <= t < |threads| ==> Arrivals(threads[t]) <= m
    ensures TotalArrivals(threads) <= m * |threads|
    ensures TotalArrivals(threads) >= m * |threads| ==> forall t :: 0 <= t < |threads| ==> Arrivals(threads[t]) == m
  {
    if threads != [] {
      AllArrived(threads[..|threads| - 1], m);
      assert m * |threads| == m * (|threads| - 1) + m;
    }
  }

  /** The barrier opens for the end of phase `m` only after every thread has arrived there. */
  lemma BarrierOpens(threads: seq<Thread>, m: nat)
    requires Together(threads) && TotalArrivals(threads) >= (m + 1) * |threads|
    ensures forall u :: 0 <= u < |threads| ==> Arrivals(threads[u]) >= m + 1
  {
    if t :| 0 <= t < |threads| && threads[t].phase >= m + 1 {
      assert forall u :: 0 <= u < |threads| ==> threads[t].phase <= Arrivals(threads[u]);
    } else {
      AllArrived(threads, m + 1);
    }
  }

  // ---- the tables from one phase to the next

  lemma FindRootStep(refs: map<nat, nat>, sources: seq<nat>, x: nat)
    requires x in refs
    ensures FindRoot(refs, x, Roots(refs, sources), Entities(sources))
            == (Roots(refs, sources + [x]), Entities(sources + [x]))
  {
    var longer := sources + [x];
    assert Entities(longer) == Entities(sources) + {x};
    var (roots, black) := FindRoot(refs, x, Roots(refs, sources), Entities(sources));
    forall v ensures v in roots <==> v in Roots(refs, longer) {
      if v in Roots(refs, longer) {
        var s :| s in longer && s in refs && refs[s] == v;
        assert s in sources || s == x;
      }
      if v in Roots(refs, sources) {
        var s :| s in sources && s in refs && refs[s] == v;
        assert s in longer;
      }
      if v == refs[x] { assert x in longer; }
    }
    assert roots == Roots(refs, longer);
  }

  lemma GatherStep(c: Config, sources: seq<nat>, x: nat)
    requires x in c.refs
    ensures Gather(c, x, BlocksOf(c, sources)) == BlocksOf(c, sources + [x])
  {
    hide BlockOf;
    forall b ensures b in Gather(c, x, BlocksOf(c, sources)) <==> b in BlocksOf(c, sources + [x]) {
      if b in BlocksOf(c, sources + [x]) {
        var s :| s in sources + [x] && s in c.refs && c.refs[s] in c.data && BlockOf(s) == b;
      }
      if b in BlocksOf(c, sources) {
        var s :| s in sources && s in c.refs && c.refs[s] in c.data && BlockOf(s) == b;
        assert s in sources + [x];
      }
      if b == BlockOf(x) && c.refs[x] in c.data { assert x in sources + [x]; }
    }
  }

  lemma RootsJoined(c: Config)
    requires Partition(c)
    ensures RootsBefore(c, |c.own|) - SourcesBefore(c, |c.own|) == Level(c.refs, Looked(c), 0)
  {
    hide BlockOf;
    var n := |c.own|;
    forall s ensures s in SourcesBefore(c, n) <==> s in c.refs { }
    forall v ensures v in RootsBefore(c, n) - SourcesBefore(c, n) <==> v in c.refs.Values - c.refs.Keys {
      if v in c.refs.Values - c.refs.Keys {
        var s :| s in c.refs && c.refs[s] == v;
        var t :| 0 <= t < n && s in c.own[t];
        assert v in Roots(c.refs, c.own[t]);
      }
    }
  }

  lemma SharesJoined(c: Config, k: nat)
    requires Partition(c) && k > 0
    ensures SharesBefore(c, |c.own|, k) == Level(c.refs, Looked(c), k)
  {
    forall s | s in Level(c.refs, Looked(c), k) ensures s in SharesBefore(c, |c.own|, k) {
      var t :| 0 <= t < |c.own| && s in c.own[t];
    }
  }

  // ---- each kind of step keeps what the thread's tables hold

  lemma PassHolds(c: Config, t: nat, me: Thread)
    requires Partition(c) && t < |c.own| && Holds(c, t, me) && me.arrived
    ensures Holds(c, t, me.(phase := me.phase + 1, arrived := false, pos := 0))
  {
    hide Roots, Level, Partition, SharesBefore, RootsBefore, SourcesBefore;
    assert c.own[t][..|c.own[t]|] == c.own[t];
    if me.phase == 1 {
      NothingJoined(c, 0);
    } else if me.phase == 2 {
      RootsJoined(c);
    } else if IsJoin(me.phase) {
      SharesJoined(c, Round(me.phase) + 1);
    }
  }

  lemma NothingJoined(c: Config, k: nat)
    ensures RootsBefore(c, 0) == {} && SourcesBefore(c, 0) == {} && SharesBefore(c, 0, k) == {}
  {
  }

  lemma ScanRootsHolds(c: Config, t: nat, me: Thread, source: nat)
    requires Partition(c) && t < |c.own| && Holds(c, t, me) && !me.arrived && !me.done
    requires me.phase == 0 && me.pos < |c.own[t]| && source == c.own[t][me.pos]
    ensures source in c.refs
    ensures var (roots, black) := FindRoot(c.refs, source, me.next, me.black);
            Holds(c, t, me.(pos := me.pos + 1, next := roots, black := black, blocks := Gather(c, source, me.blocks)))
  {
    hide FindRoot, Roots, Level, Gather, BlocksOf, BlockOf;
    FindRootStep(c.refs, c.own[t][..me.pos], source);
    GatherStep(c, c.own[t][..me.pos], source);
    assert c.own[t][..me.pos + 1] == c.own[t][..me.pos] + [source];
  }

  /** What thread `u` offers while thread `t` joins: its table is complete. */
  lemma OfferedRoots(c: Config, s: State, t: nat, u: nat)
    requires Inv(c, s) && t < |c.own| && u < |c.own| && s.threads[t].phase == 2 && !s.threads[t].arrived
    ensures s.threads[u].next == Roots(c.refs, c.own[u]) && s.threads[u].black == Entities(c.own[u])
  {
    hide Partition, LogOk, Level, Roots;
    assert s.threads[t].phase <= Arrivals(s.threads[u]) && s.threads[u].phase <= Arrivals(s.threads[t]);
    assert Holds(c, u, s.threads[u]);
  }

  lemma OfferedShare(c: Config, s: State, t: nat, u: nat)
    requires Inv(c, s) && t < |c.own| && u < |c.own| && IsJoin(s.threads[t].phase) && !s.threads[t].arrived
    ensures s.threads[u].next == Share(c, u, |c.own[u]|, Round(s.threads[t].phase) + 1)
  {
    hide Partition, LogOk, Level, Roots, Share;
    assert s.threads[t].phase <= Arrivals(s.threads[u]) && s.threads[u].phase <= Arrivals(s.threads[t]);
    assert Holds(c, u, s.threads[u]);
  }

  lemma JoinOne(c: Config, u: nat, k: nat)
    requires u < |c.own|
    ensures RootsBefore(c, u + 1) == RootsBefore(c, u) + Roots(c.refs, c.own[u])
    ensures SourcesBefore(c, u + 1) == SourcesBefore(c, u) + Entities(c.own[u])
    ensures SharesBefore(c, u + 1, k) == SharesBefore(c, u, k) + Share(c, u, |c.own[u]|, k)
  {
    hide Roots, Level;
    assert c.own[u][..|c.own[u]|] == c.own[u];
    forall v ensures v in SharesBefore(c, u + 1, k) <==> v in SharesBefore(c, u, k) + Share(c, u, |c.own[u]|, k) { }
    forall v ensures v in RootsBefore(c, u + 1) <==> v in RootsBefore(c, u) + Roots(c.refs, c.own[u]) { }
    forall v ensures v in SourcesBefore(c, u + 1) <==> v in SourcesBefore(c, u) + Entities(c.own[u]) { }
  }

  lemma HoldsAt(c: Config, s: State, t: nat)
    requires Inv(c, s) && t < |c.own|
    ensures Partition(c) && |s.threads| == |c.own| && Holds(c, t, s.threads[t])
  {
    hide Partition, LogOk, Holds;
  }

  lemma JoinRootsValue(c: Config, t: nat, me: Thread, roots: set<nat>, black: set<nat>)
    requires t < |c.own| && Holds(c, t, me) && me.phase == 2 && !me.arrived && !me.done && me.pos < 2 * |c.own|
    requires me.pos < |c.own| ==> roots == Roots(c.refs, c.own[me.pos])
    requires me.pos >= |c.own| ==> black == Entities(c.own[me.pos - |c.own|])
    ensures Holds(c, t, me.(pos := me.pos + 1, current := if me.pos < |c.own| then me.current + roots else me.current - black))
  {
    hide Roots, Level, RootsBefore, SourcesBefore, Entities, Share, SharesBefore;
    NothingJoined(c, 0);
    if me.pos < |c.own| { JoinOne(c, me.pos, 0); } else { JoinOne(c, me.pos - |c.own|, 0); }
  }

  lemma JoinRootsHolds(c: Config, s: State, t: nat)
    requires Inv(c, s) && t < |c.own| && s.threads[t].phase == 2 && !s.threads[t].arrived && !s.threads[t].done
    requires s.threads[t].pos < 2 * |c.own|
    ensures Holds(c, t, Work(c, s, t))
  {
    hide Inv, Holds, Roots, Partition, Entities, FindRoot;
    HoldsAt(c, s, t);
    var me, n := s.threads[t], |c.own|;
    var u := if me.pos < n then me.pos else me.pos - n;
    OfferedRoots(c, s, t, u);
    JoinRootsValue(c, t, me, s.threads[u].next, s.threads[u].black);
  }

  lemma JoinSharesValue(c: Config, t: nat, me: Thread, share: set<nat>)
    requires t < |c.own| && Holds(c, t, me) && IsJoin(me.phase) && !me.arrived && !me.done && me.pos <= |c.own|
    requires me.pos > 0 ==> share == Share(c, me.pos - 1, |c.own[me.pos - 1]|, Round(me.phase) + 1)
    ensures Holds(c, t, me.(pos := me.pos + 1, current := if me.pos == 0 then {} else me.current + share))
  {
    hide Roots, Level, RootsBefore, SourcesBefore, Entities, Share, SharesBefore;
    NothingJoined(c, Round(me.phase) + 1);
    if me.pos > 0 { JoinOne(c, me.pos - 1, Round(me.phase) + 1); }
  }

  lemma JoinSharesHolds(c: Config, s: State, t: nat)
    requires Inv(c, s) && t < |c.own| && IsJoin(s.threads[t].phase) && !s.threads[t].arrived && !s.threads[t].done
    requires s.threads[t].pos <= |c.own|
    ensures Holds(c, t, Work(c, s, t))
  {
    hide Inv, Holds, Share, Partition, FindRoot;
    HoldsAt(c, s, t);
    var me := s.threads[t];
    if me.pos > 0 {
      OfferedShare(c, s, t, me.pos - 1);
      JoinSharesValue(c, t, me, s.threads[me.pos - 1].next);
    } else {
      JoinSharesValue(c, t, me, {});
    }
  }

  /** A source is reached exactly when its target is in this round's frontier, so it belongs to the next round. */
  lemma ReachedIsNextRound(c: Config, source: nat, blocks: set<nat>, k: nat)
    requires source in c.refs && (BlockOf(source) in blocks <==> source in Looked(c))
    ensures Reached(c, source, blocks, Level(c.refs, Looked(c), k)) <==> source in Level(c.refs, Looked(c), k + 1)
  {
    hide Looked, BlockOf;
  }

  lemma ShareStep(c: Config, t: nat, i: nat, k: nat)
    requires t < |c.own| && i < |c.own[t]|
    ensures Share(c, t, 0, k) == {}
    ensures Share(c, t, i + 1, k)
            == Share(c, t, i, k) + (if c.own[t][i] in Level(c.refs, Looked(c), k) then {c.own[t][i]} else {})
  {
    hide Level;
    assert c.own[t][..i + 1] == c.own[t][..i] + [c.own[t][i]];
  }

  lemma ScanValue(c: Config, t: nat, me: Thread, reached: bool)
    requires t < |c.own| && Holds(c, t, me) && IsScan(me.phase) && !me.arrived && !me.done && 0 < me.pos <= |c.own[t]|
    requires reached <==> c.own[t][me.pos - 1] in Level(c.refs, Looked(c), Round(me.phase) + 1)
    ensures Holds(c, t, me.(pos := me.pos + 1, next := if reached then me.next + {c.own[t][me.pos - 1]} else me.next))
  {
    hide Roots, Level, RootsBefore, SourcesBefore, Entities, Share, SharesBefore;
    ShareStep(c, t, me.pos - 1, Round(me.phase) + 1);
  }

  lemma ClearValue(c: Config, t: nat, me: Thread)
    requires t < |c.own| && Holds(c, t, me) && IsScan(me.phase) && !me.arrived && me.pos == 0 && me.current != {}
    ensures Holds(c, t, me.(pos := 1, next := {}))
  {
    hide Roots, Level, RootsBefore, SourcesBefore, Entities, SharesBefore;
  }

  lemma ScanHolds(c: Config, s: State, t: nat)
    requires Inv(c, s) && t < |c.own| && IsScan(s.threads[t].phase) && !s.threads[t].arrived && !s.threads[t].done
    requires s.threads[t].pos <= |c.own[t]| && !(s.threads[t].pos == 0 && s.threads[t].current == {})
    ensures Holds(c, t, Work(c, s, t))
  {
    hide Inv, Holds, Reached, Partition, FindRoot;
    HoldsAt(c, s, t);
    var me := s.threads[t];
    if me.pos == 0 {
      ClearValue(c, t, me);
    } else {
      ScanFrontier(c, t, me);
      ReachedIsNextRound(c, c.own[t][me.pos - 1], me.blocks, Round(me.phase));
      ScanValue(c, t, me, Reached(c, c.own[t][me.pos - 1], me.blocks, me.current));
    }
  }

  lemma ScanFrontier(c: Config, t: nat, me: Thread)
    requires Partition(c) && t < |c.own| && Holds(c, t, me) && IsScan(me.phase)
    ensures me.current == Level(c.refs, Looked(c), Round(me.phase))
    ensures forall i :: 0 <= i < |c.own[t]| ==> c.own[t][i] in c.refs
    ensures forall i :: 0 <= i < |c.own[t]| ==> (BlockOf(c.own[t][i]) in me.blocks <==> c.own[t][i] in Looked(c))
  {
    hide Level, Looked, BlocksOf, BlockOf, Roots;
    forall i | 0 <= i < |c.own[t]| ensures BlockOf(c.own[t][i]) in me.blocks <==> c.own[t][i] in Looked(c) { OwnLooked(c, t, i); }
  }

  /** All sources of a block are the thread's own, so its own tables tell whether the block is looked at. */
  lemma OwnLooked(c: Config, t: nat, i: nat)
    requires Partition(c) && t < |c.own| && i < |c.own[t]|
    ensures c.own[t][i] in c.refs && (BlockOf(c.own[t][i]) in BlocksOf(c, c.own[t]) <==> c.own[t][i] in Looked(c))
  {
    hide BlockOf;
    var source := c.own[t][i];
    if source in Looked(c) {
      var q :| q in c.refs && BlockOf(q) == BlockOf(source) && c.refs[q] in c.data;
      var u, j := Owner(c, q);
      assert t == u;
      assert q in c.own[t];
    }
    if BlockOf(source) in BlocksOf(c, c.own[t]) {
      var q :| q in c.own[t] && q in c.refs && c.refs[q] in c.data && BlockOf(q) == BlockOf(source);
    }
  }

  /** Whatever the phase, a sub-step leaves the thread's tables as the next point requires. */
  lemma WorkHolds(c: Config, s: State, t: nat)
    requires Inv(c, s) && t < |c.own| && !s.threads[t].arrived && !s.threads[t].done
    requires s.threads[t].pos < Length(c, t, s.threads[t].phase)
    requires !(IsScan(s.threads[t].phase) && s.threads[t].pos == 0 && s.threads[t].current == {})
    ensures Holds(c, t, Work(c, s, t))
  {
    hide Inv, Holds, FindRoot, Partition, Reached;
    HoldsAt(c, s, t);
    var me := s.threads[t];
    if me.phase == 0 {
      ScanRootsHolds(c, t, me, c.own[t][me.pos]);
    } else if me.phase == 2 {
      JoinRootsHolds(c, s, t);
    } else if IsScan(me.phase) {
      ScanHolds(c, s, t);
    } else {
      JoinSharesHolds(c, s, t);
    }
  }

  // ---- the log

  lemma OtherSource(c: Config, t: nat, i: nat, u: nat, j: nat)
    requires Partition(c) && t < |c.own| && i < |c.own[t]| && u < |c.own| && j < |c.own[u]| && (t != u || i != j)
    ensures c.own[t][i] != c.own[u][j]
  {
  }

  lemma PassLogged(c: Config, t: nat, me: Thread, i: nat, k: nat)
    requires t < |c.own| && i < |c.own[t]| && me.pos == Length(c, t, me.phase)
    ensures Passed(me.(phase := me.phase + 1, arrived := false, pos := 0), i, k) <==> Passed(me, i, k)
  {
  }

  lemma WorkLogged(c: Config, s: State, t: nat, i: nat, k: nat)
    requires Inv(c, s) && t < |c.own| && i < |c.own[t]| && !s.threads[t].arrived && !s.threads[t].done
    requires s.threads[t].pos < Length(c, t, s.threads[t].phase)
    requires Logged(c, s, t, i, k)
    ensures (s.log + Processed(c, s.threads[t], t))[(c.own[t][i], k)]
            == if Passed(Work(c, s, t), i, k) && c.own[t][i] in Level(c.refs, Looked(c), k) then 1 else 0
  {
    hide Inv, Holds, FindRoot, Reached, Level;
    HoldsAt(c, s, t);
    var me := s.threads[t];
    if IsScan(me.phase) && me.pos > 0 {
      ScanFrontier(c, t, me);
      ReachedIsNextRound(c, c.own[t][me.pos - 1], me.blocks, Round(me.phase));
      if i != me.pos - 1 { OtherSource(c, t, i, t, me.pos - 1); }
    }
  }

  lemma OthersLogged(c: Config, s: State, s': State, t: nat, u: nat, i: nat, k: nat)
    requires Inv(c, s) && t < |c.own| && u < |c.own| && i < |c.own[u]| && u != t
    requires |s'.threads| == |c.own| && s'.threads[u] == s.threads[u] && s'.log == s.log + Processed(c, s.threads[t], t)
    requires Logged(c, s, u, i, k)
    ensures Logged(c, s', u, i, k)
  {
    hide Inv, Holds, Reached, Level, Passed;
    HoldsAt(c, s, t);
    var me := s.threads[t];
    if IsScan(me.phase) && 0 < me.pos <= |c.own[t]| { OtherSource(c, t, me.pos - 1, u, i); }
  }

  lemma LoggedAt(c: Config, s: State)
    requires Inv(c, s)
    ensures forall t, i, k: nat {:trigger Logged(c, s, t, i, k)} :: 0 <= t < |c.own| && 0 <= i < |c.own[t]| ==> Logged(c, s, t, i, k)
    ensures forall e :: e in s.log ==> e.0 in c.refs
  {
    hide Logged, Partition, Together, Holds;
  }

  lemma WorkLogOk(c: Config, s: State, s': State, t: nat)
    requires Inv(c, s) && t < |c.own| && !s.threads[t].arrived && !s.threads[t].done
    requires s.threads[t].pos < Length(c, t, s.threads[t].phase)
    requires s' == s.(threads := s.threads[t := Work(c, s, t)], log := s.log + Processed(c, s.threads[t], t))
    ensures LogOk(c, s')
  {
    hide Inv, Level, Work, Passed, Reached;
    HoldsAt(c, s, t);
    LoggedAt(c, s);
    forall u: nat, i: nat, k: nat {:trigger Logged(c, s', u, i, k)} | u < |c.own| && i < |c.own[u]| ensures Logged(c, s', u, i, k) {
      assert Logged(c, s, u, i, k);
      if u == t { WorkLogged(c, s, t, i, k); } else { OthersLogged(c, s, s', t, u, i, k); }
    }
    LogInRefs(c, s, t);
  }

  lemma LogInRefs(c: Config, s: State, t: nat)
    requires Inv(c, s) && t < |c.own|
    ensures forall e :: e in s.log + Processed(c, s.threads[t], t) ==> e.0 in c.refs
  {
    hide Level, Inv;
    HoldsAt(c, s, t);
    LoggedAt(c, s);
  }

  lemma SameLogOk(c: Config, s: State, s': State, t: nat)
    requires Inv(c, s) && t < |c.own| && |s'.threads| == |s.threads| && s'.log == s.log
    requires s'.threads == s.threads[t := s'.threads[t]]
    requires forall i, k: nat {:trigger Passed(s'.threads[t], i, k)} :: 0 <= i < |c.own[t]| ==>
               (Passed(s'.threads[t], i, k) <==> Passed(s.threads[t], i, k))
    ensures LogOk(c, s')
  {
    hide Inv, Level, Passed;
    HoldsAt(c, s, t);
    LoggedAt(c, s);
    forall u: nat, i: nat, k: nat {:trigger Logged(c, s', u, i, k)} | u < |c.own| && i < |c.own[u]| ensures Logged(c, s', u, i, k) {
      assert Logged(c, s, u, i, k);
    }
  }

  // ---- every step keeps the invariant

  lemma StepTogether(c: Config, s: State, t: nat)
    requires Inv(c, s) && Enabled(c, s, t)
    ensures var s' := Step(c, s, t);
            |s'.threads| == |c.own| && s'.tickets == TotalArrivals(s'.threads) && Together(s'.threads)
  {
    hide Holds, LogOk, Partition, TotalArrivals, Work, Processed, Length;
    var s' := Step(c, s, t);
    TotalChanges(s.threads, t, s'.threads[t]);
    WorkKeepsPhase(c, s, t);
    if s.threads[t].arrived { BarrierOpens(s.threads, s.threads[t].phase); }
    forall i, u | 0 <= i < |c.own| && 0 <= u < |c.own| ensures s'.threads[i].phase <= Arrivals(s'.threads[u]) {
      assert s.threads[i].phase <= Arrivals(s.threads[u]);
    }
  }

  lemma WorkKeepsPhase(c: Config, s: State, t: nat)
    requires t < |c.own| && |s.threads| == |c.own| && Partition(c)
    ensures s.threads[t].pos < Length(c, t, s.threads[t].phase) ==>
              Work(c, s, t).phase == s.threads[t].phase && Work(c, s, t).arrived == s.threads[t].arrived
  {
    hide Partition, FindRoot, Reached;
  }

  lemma StepHolds(c: Config, s: State, t: nat, u: nat)
    requires Inv(c, s) && Enabled(c, s, t) && u < |c.own|
    ensures Holds(c, u, Step(c, s, t).threads[u])
  {
    hide Inv, Partition, Work, Next, Black, Current, Level;
    HoldsAt(c, s, t);
    HoldsAt(c, s, u);
    var me := s.threads[t];
    if u == t {
      if me.arrived {
        PassHolds(c, t, me);
      } else if !(IsScan(me.phase) && me.pos == 0 && me.current == {}) && me.pos < Length(c, t, me.phase) {
        WorkHolds(c, s, t);
      }
    }
  }

  lemma StepLogOk(c: Config, s: State, t: nat)
    requires Inv(c, s) && Enabled(c, s, t)
    ensures LogOk(c, Step(c, s, t))
  {
    hide Inv, Partition, Work, Next, Black, Current, Level, LogOk, Passed;
    HoldsAt(c, s, t);
    var me, s' := s.threads[t], Step(c, s, t);
    if me.arrived {
      forall i: nat, k: nat {:trigger Passed(s'.threads[t], i, k)} | i < |c.own[t]|
        ensures Passed(s'.threads[t], i, k) <==> Passed(me, i, k)
      {
        PassLogged(c, t, me, i, k);
      }
      SameLogOk(c, s, s', t);
    } else if !(IsScan(me.phase) && me.pos == 0 && me.current == {}) && me.pos < Length(c, t, me.phase) {
      WorkLogOk(c, s, s', t);
    } else {
      forall i: nat, k: nat {:trigger Passed(s'.threads[t], i, k)} | i < |c.own[t]|
        ensures Passed(s'.threads[t], i, k) <==> Passed(me, i, k)
      {
        SamePassed(me, s'.threads[t], i, k);
      }
      SameLogOk(c, s, s', t);
    }
  }

  lemma SamePassed(me: Thread, me': Thread, i: nat, k: nat)
    requires me.phase == me'.phase && me.pos == me'.pos
    ensures Passed(me, i, k) <==> Passed(me', i, k)
  {
  }

  lemma StepInv(c: Config, s: State, t: nat)
    requires Inv(c, s) && Enabled(c, s, t)
    ensures Inv(c, Step(c, s, t))
  {
    hide Holds, LogOk, Partition, TotalArrivals, Together, Work, Processed, Enabled, Length;
    StepTogether(c, s, t);
    forall u | 0 <= u < |c.own| ensures Holds(c, u, Step(c, s, t).threads[u]) { StepHolds(c, s, t, u); }
    StepLogOk(c, s, t);
  }

  // ---- runs

  /** From the start, thread `ts[i]` takes the step from state `i` to state `i + 1`. */
  ghost predicate IsRun(c: Config, ts: seq<nat>, ss: seq<State>) {
    && |ss| == |ts| + 1 && Partition(c) && Start(c, ss[0])
    && forall i, j :: 0 <= i < |ts| && j == i + 1 ==> Moves(c, ss[i], ts[i], ss[j])
  }

  ghost predicate Moves(c: Config, s: State, t: nat, s': State) {
    Partition(c) && Enabled(c, s, t) && s' == Step(c, s, t)
  }

  predicate AllDone(s: State) {
    forall t :: 0 <= t < |s.threads| ==> s.threads[t].done
  }

  lemma RunStep(c: Config, ts: seq<nat>, ss: seq<State>, i: nat, j: nat)
    requires IsRun(c, ts, ss) && i < |ts| && j == i + 1
    ensures Enabled(c, ss[i], ts[i]) && ss[j] == Step(c, ss[i], ts[i])
  {
    hide Enabled, Step, Partition, Start;
  }

  lemma {:induction false} RunInv(c: Config, ts: seq<nat>, ss: seq<State>, i: nat)
    requires IsRun(c, ts, ss) && i < |ss|
    ensures Inv(c, ss[i]) && c.own != []
  {
    hide Start, Inv, Enabled, Step, Partition;
    OwnListNonEmpty(c);
    if i == 0 {
      StartInv(c, ss[0]);
    } else {
      RunStep(c, ts, ss, i - 1, i);
      RunInv(c, ts, ss, i - 1);
      StepInv(c, ss[i - 1], ts[i - 1]);
    }
  }

  // ---- what is processed, how often and when

  lemma FinalLog(c: Config, s: State, t: nat, i: nat, k: nat)
    requires Inv(c, s) && AllDone(s) && t < |c.own| && i < |c.own[t]|
    ensures s.log[(c.own[t][i], k)] == if k > 0 && c.own[t][i] in Level(c.refs, Looked(c), k) then 1 else 0
  {
    hide Inv, Level, Partition, Next, Black;
    HoldsAt(c, s, t);
    LoggedAt(c, s);
    assert Logged(c, s, t, i, k);
    var r := Round(s.threads[t].phase);
    if k > r {
      EmptyStaysEmpty(c.refs, Looked(c), r, k);
    }
  }

  lemma Owner(c: Config, source: nat) returns (t: nat, i: nat)
    requires Partition(c) && source in c.refs
    ensures t < |c.own| && i < |c.own[t]| && c.own[t][i] == source
  {
    t :| 0 <= t < |c.own| && source in c.own[t];
    i :| 0 <= i < |c.own[t]| && c.own[t][i] == source;
  }

  /** Every target has the gathered components. */
  ghost predicate FullData(c: Config) {
    forall s :: s in c.refs ==> c.refs[s] in c.data
  }

  /**
   * When all threads have left the loop, a source has been processed once in the round given by the length of its
   * chain and never in another round; a source on a cycle, or leading into one, has not been processed at all.
   */
  lemma ProcessedExactlyOnce(c: Config, ts: seq<nat>, ss: seq<State>, source: nat, k: nat)
    requires IsRun(c, ts, ss) && AllDone(ss[|ts|]) && source in c.refs && FullData(c)
    ensures ss[|ts|].log[(source, k)] == if k > 0 && Ends(c.refs, source, k) then 1 else 0
    ensures LeadsToCycle(c.refs, source) ==> ss[|ts|].log[(source, k)] == 0
  {
    hide Inv, Level, Partition, LeadsToCycle, AllDone, BlockOf;
    forall s | s in c.refs ensures s in Looked(c) { assert BlockOf(s) == BlockOf(s); }
    LastLog(c, ts, ss, source, k);
    LevelExact(c.refs, Looked(c), source, k);
    EndsOrCycles(c.refs, source);
  }

  lemma LastLog(c: Config, ts: seq<nat>, ss: seq<State>, source: nat, k: nat)
    requires IsRun(c, ts, ss) && AllDone(ss[|ts|]) && source in c.refs
    ensures ss[|ts|].log[(source, k)] == if k > 0 && source in Level(c.refs, Looked(c), k) then 1 else 0
  {
    hide Inv, Level, Partition, AllDone, Looked;
    RunInv(c, ts, ss, |ts|);
    HoldsAt(c, ss[|ts|], 0);
    var t, i := Owner(c, source);
    FinalLog(c, ss[|ts|], t, i, k);
  }

  /** The chain of the source ends after `k` steps, and every source on it is in a block that is looked at. */
  ghost predicate ReachesRoot(c: Config, source: nat, k: nat) {
    k > 0 && Ends(c.refs, source, k) && ChainIn(c.refs, Looked(c), source, k)
  }

  /**
   * Whatever targets have data: a source is processed, once and in the round its chain tells, exactly when every
   * source on its chain shares its block with a source whose target has data.
   */
  lemma ProcessedByLevel(c: Config, ts: seq<nat>, ss: seq<State>, source: nat, k: nat)
    requires IsRun(c, ts, ss) && AllDone(ss[|ts|]) && source in c.refs
    ensures ss[|ts|].log[(source, k)] == if ReachesRoot(c, source, k) then 1 else 0
  {
    hide IsRun, Level, AllDone, Looked, Ends, ChainIn;
    LastLog(c, ts, ss, source, k);
    LevelChain(c.refs, Looked(c), source, k);
  }

  predicate HasData(c: Config, source: nat) {
    source in c.refs && c.refs[source] in c.data
  }

  /** Each processed source has a target with data. */
  ghost predicate OnlyWithData(c: Config, log: multiset<(nat, nat)>) {
    forall e :: e in log ==> HasData(c, e.0)
  }

  /**
   * Processing is confined to sources whose target has data if and only if no source without target data has a chain
   * to a root through blocks that are looked at.
   */
  lemma OnlyWithDataExact(c: Config, ts: seq<nat>, ss: seq<State>)
    requires IsRun(c, ts, ss) && AllDone(ss[|ts|])
    ensures OnlyWithData(c, ss[|ts|].log) <==> forall s, k: nat :: s in c.refs && !HasData(c, s) ==> !ReachesRoot(c, s, k)
  {
    hide IsRun, AllDone, ReachesRoot;
    LoggedRefs(c, ts, ss);
    var log := ss[|ts|].log;
    forall s, k: nat {:trigger ReachesRoot(c, s, k)} | s in c.refs ensures (s, k) in log <==> ReachesRoot(c, s, k) {
      ProcessedByLevel(c, ts, ss, s, k);
    }
    if OnlyWithData(c, log) {
      forall s, k: nat {:trigger ReachesRoot(c, s, k)} | s in c.refs && ReachesRoot(c, s, k) ensures HasData(c, s) {
        assert HasData(c, (s, k).0);
      }
    }
    if forall s, k: nat :: s in c.refs && !HasData(c, s) ==> !ReachesRoot(c, s, k) {
      forall e | e in log ensures HasData(c, e.0) { assert (e.0, e.1) in log <==> ReachesRoot(c, e.0, e.1); }
    }
  }

  lemma LoggedRefs(c: Config, ts: seq<nat>, ss: seq<State>)
    requires IsRun(c, ts, ss)
    ensures |ss| == |ts| + 1 && forall e :: e in ss[|ts|].log ==> e.0 in c.refs
  {
    hide Inv, Logged;
    RunInv(c, ts, ss, |ts|);
    HoldsAt(c, ss[|ts|], 0);
    LoggedAt(c, ss[|ts|]);
  }

  /** When the sources of a block all have target data or all have none, no source is processed without. */
  lemma UniformBlocks(c: Config, ts: seq<nat>, ss: seq<State>)
    requires IsRun(c, ts, ss) && AllDone(ss[|ts|])
    requires forall s, q :: s in c.refs && q in c.refs && BlockOf(s) == BlockOf(q) ==> (HasData(c, s) <==> HasData(c, q))
    ensures OnlyWithData(c, ss[|ts|].log)
  {
    hide IsRun, AllDone, BlockOf;
    OnlyWithDataExact(c, ts, ss);
    forall s, k: nat {:trigger ReachesRoot(c, s, k)} | s in c.refs && !HasData(c, s) ensures !ReachesRoot(c, s, k) {
      StartsLooked(c, s, k);
    }
  }

  lemma StartsLooked(c: Config, source: nat, k: nat)
    ensures ReachesRoot(c, source, k) ==> source in Looked(c)
  {
    hide Looked;
    if ReachesRoot(c, source, k) { assert Follow(c.refs, source, 0).value == source; }
  }

  /** At any moment a source has been processed at most once overall. */
  lemma NeverTwice(c: Config, ts: seq<nat>, ss: seq<State>, i: nat, source: nat, j: nat, k: nat)
    requires IsRun(c, ts, ss) && i < |ss| && (source, j) in ss[i].log && (source, k) in ss[i].log
    ensures j == k && ss[i].log[(source, k)] == 1
  {
    hide Inv, Level, Partition;
    RunInv(c, ts, ss, i);
    HoldsAt(c, ss[i], 0);
    LoggedAt(c, ss[i]);
    var t, p := Owner(c, source);
    assert Logged(c, ss[i], t, p, j) && Logged(c, ss[i], t, p, k);
    LevelsDisjoint(c.refs, Looked(c), source, j, k);
  }

  /** A source is processed after its target, in the very next round. */
  lemma TargetFirst(c: Config, ts: seq<nat>, ss: seq<State>, i: nat, source: nat, k: nat)
    requires IsRun(c, ts, ss) && i < |ss| && (source, k) in ss[i].log
    ensures k > 0 && source in c.refs
    ensures c.refs[source] in c.refs ==> k > 1 && ss[i].log[(c.refs[source], k - 1)] == 1
    ensures c.refs[source] !in c.refs ==> k == 1
  {
    hide Inv, Partition, Level;
    RunInv(c, ts, ss, i);
    var s := ss[i];
    HoldsAt(c, s, 0);
    LoggedAt(c, s);
    var t, p := Owner(c, source);
    assert Logged(c, s, t, p, k);
    LevelStep(c, source, k);
    if c.refs[source] in c.refs {
      var u, q := Owner(c, c.refs[source]);
      assert Logged(c, s, u, q, k - 1);
      TogetherAt(c, s, t, u);
    }
  }

  lemma LevelStep(c: Config, source: nat, k: nat)
    requires k > 0 && source in Level(c.refs, Looked(c), k)
    ensures source in c.refs && c.refs[source] in Level(c.refs, Looked(c), k - 1)
    ensures c.refs[source] in c.refs <==> k > 1
  {
    LevelEnds(c.refs, Looked(c), source, k);
  }

  lemma TogetherAt(c: Config, s: State, t: nat, u: nat)
    requires Inv(c, s) && t < |c.own| && u < |c.own|
    ensures s.threads[t].phase <= Arrivals(s.threads[u])
  {
  }

  // ---- race freedom

  /** Thread `t` is about to read the next frontier of thread `u`. */
  predicate ReadsNext(c: Config, me: Thread, u: nat) {
    && !me.arrived && !me.done
    && ((me.phase == 2 && me.pos == u < |c.own|) || (IsJoin(me.phase) && me.pos == u + 1))
  }

  predicate ReadsBlack(c: Config, me: Thread, u: nat) {
    !me.arrived && !me.done && me.phase == 2 && me.pos == u + |c.own|
  }

  /** The thread's next step may clear or extend its own next frontier. */
  predicate WritesNext(me: Thread) {
    !me.arrived && !me.done && (me.phase == 0 || IsScan(me.phase))
  }

  predicate WritesBlack(me: Thread) {
    !me.arrived && !me.done && me.phase == 0
  }

  /** No thread clears or fills a table while another one reads it. */
  lemma NoRace(c: Config, ts: seq<nat>, ss: seq<State>, i: nat, t: nat, u: nat)
    requires IsRun(c, ts, ss) && i < |ss| && t < |c.own| && u < |c.own|
    ensures |ss[i].threads| == |c.own|
    ensures ReadsNext(c, ss[i].threads[t], u) ==> !WritesNext(ss[i].threads[u])
    ensures ReadsBlack(c, ss[i].threads[t], u) ==> !WritesBlack(ss[i].threads[u])
  {
    hide Inv, Partition;
    RunInv(c, ts, ss, i);
    HoldsAt(c, ss[i], t);
    TogetherAt(c, ss[i], t, u);
    TogetherAt(c, ss[i], u, t);
  }

  /** Only a table's own thread changes it. */
  lemma OnlyOwnTables(c: Config, s: State, t: nat, u: nat)
    requires Enabled(c, s, t) && Partition(c) && u < |c.own| && u != t
    ensures Step(c, s, t).threads[u] == s.threads[u]
  {
  }

  // ---- progress and termination

  lemma FirstThread(c: Config, s: State) returns (t: nat)
    requires |s.threads| == |c.own| && c.own != []
    ensures t < |c.own| && forall u :: 0 <= u < |c.own| ==> s.threads[t].phase <= s.threads[u].phase
  {
    t := 0;
    var i := 1;
    while i < |c.own|
      invariant 1 <= i <= |c.own| && t < |c.own|
      invariant forall u :: 0 <= u < i ==> s.threads[t].phase <= s.threads[u].phase
    {
      if s.threads[i].phase < s.threads[t].phase { t := i; }
      i := i + 1;
    }
  }

  lemma {:induction false} ArrivedBound(threads: seq<Thread>, m: nat)
    requires forall t :: 0 <= t < |threads| ==> Arrivals(threads[t]) >= m
    ensures TotalArrivals(threads) >= m * |threads|
  {
    if threads != [] {
      ArrivedBound(threads[..|threads| - 1], m);
      assert m * |threads| == m * (|threads| - 1) + m;
    }
  }

  lemma TicketsAt(c: Config, s: State, m: nat)
    requires Inv(c, s) && forall t :: 0 <= t < |c.own| ==> Arrivals(s.threads[t]) >= m
    ensures s.tickets >= m * |c.own|
  {
    hide Partition, Holds, LogOk;
    ArrivedBound(s.threads, m);
  }

  /** The threads never wait for each other forever: until all are done, some thread can move. */
  lemma NoDeadlock(c: Config, ts: seq<nat>, ss: seq<State>, i: nat)
    requires IsRun(c, ts, ss) && i < |ss| && !AllDone(ss[i])
    ensures exists t :: Enabled(c, ss[i], t)
  {
    hide Inv, Partition, LogOk, Next, Black, Level;
    RunInv(c, ts, ss, i);
    var s := ss[i];
    HoldsAt(c, s, 0);
    var w :| 0 <= w < |c.own| && !s.threads[w].done;
    if !s.threads[w].arrived {
      assert Enabled(c, s, w);
    } else {
      OwnListNonEmpty(c);
      var t := FirstThread(c, s);
      if !s.threads[t].arrived && !s.threads[t].done {
        assert Enabled(c, s, t);
      } else {
        NobodyPasses(c, s, t, w);
      }
    }
  }

  lemma OwnListNonEmpty(c: Config)
    requires Partition(c)
    ensures c.own != []
  {
  }

  /** If the first thread waits or is done, an arrived thread can pass or an earlier one can move. */
  lemma NobodyPasses(c: Config, s: State, t: nat, w: nat)
    requires Inv(c, s) && t < |c.own| && w < |c.own| && s.threads[w].arrived && !s.threads[w].done
    requires s.threads[t].arrived || s.threads[t].done
    requires forall u :: 0 <= u < |c.own| ==> s.threads[t].phase <= s.threads[u].phase
    ensures exists u :: Enabled(c, s, u)
  {
    hide Inv, Partition, LogOk, Next, Black, Level;
    HoldsAt(c, s, t);
    HoldsAt(c, s, w);
    TogetherAt(c, s, w, t);
    var m := s.threads[t].phase;
    if u :| 0 <= u < |c.own| && !s.threads[u].arrived && !s.threads[u].done {
      assert Enabled(c, s, u);
    } else if s.threads[t].done {
      assert s.threads[w].phase == m;
      assert s.threads[w].current == s.threads[t].current;
      SamePhaseNotEmpty(c, s, t, w);
    } else {
      forall u | 0 <= u < |c.own| ensures Arrivals(s.threads[u]) >= m + 1 {
        HoldsAt(c, s, u);
        TogetherAt(c, s, u, t);
        if s.threads[u].done && s.threads[u].phase == m { SamePhaseNotEmpty(c, s, u, t); }
      }
      TicketsAt(c, s, m + 1);
      assert Enabled(c, s, t);
    }
  }

  /** A thread does not leave the loop in a round through which another one has gone. */
  lemma SamePhaseNotEmpty(c: Config, s: State, t: nat, w: nat)
    requires Inv(c, s) && t < |c.own| && w < |c.own| && s.threads[t].done && s.threads[w].arrived
    ensures s.threads[w].phase != s.threads[t].phase
  {
    hide Inv, Partition, LogOk, Next, Black, Level;
    HoldsAt(c, s, t);
    HoldsAt(c, s, w);
  }

  /** More than the sub-steps of any phase and its two barrier steps. */
  function PhaseWork(c: Config): nat { |c.refs| + 2 * |c.own| + 4 }

  function Progress(c: Config, me: Thread): nat {
    me.phase * PhaseWork(c) + me.pos + (if me.arrived then 1 else 0) + (if me.done then 1 else 0)
  }

  function TotalProgress(c: Config, threads: seq<Thread>): nat {
    if threads == [] then 0 else TotalProgress(c, threads[..|threads| - 1]) + Progress(c, threads[|threads| - 1])
  }

  lemma {:induction false} ProgressChanges(c: Config, threads: seq<Thread>, t: nat, me: Thread)
    requires t < |threads|
    ensures TotalProgress(c, threads[t := me]) == TotalProgress(c, threads) - Progress(c, threads[t]) + Progress(c, me)
  {
    hide Progress;
    var n := |threads| - 1;
    var changed := threads[t := me];
    if t < n {
      ProgressChanges(c, threads[..n], t, me);
      assert changed[..n] == threads[..n][t := me];
    } else {
      assert changed[..n] == threads[..n];
    }
  }

  lemma OwnBound(c: Config, t: nat)
    requires Partition(c) && t < |c.own|
    ensures |c.own[t]| <= |c.refs|
  {
    if |c.own[t]| > |c.refs| { var i, j := Repeats(c.own[t], c.refs.Keys); }
  }

  lemma NextPhaseProgress(c: Config, phase: nat)
    ensures (phase + 1) * PhaseWork(c) == phase * PhaseWork(c) + PhaseWork(c)
  {
  }

  lemma StepProgress(c: Config, s: State, t: nat)
    requires Inv(c, s) && Enabled(c, s, t)
    ensures TotalProgress(c, Step(c, s, t).threads) > TotalProgress(c, s.threads)
  {
    hide Inv, Partition, Next, Black, Current, Level, TotalProgress, PhaseWork;
    HoldsAt(c, s, t);
    var s' := Step(c, s, t);
    ProgressChanges(c, s.threads, t, s'.threads[t]);
    WorkMoves(c, s, t);
    WorkKeepsPhase(c, s, t);
    NextPhaseProgress(c, s.threads[t].phase);
    LengthBound(c, t, s.threads[t].phase);
  }

  lemma LengthBound(c: Config, t: nat, phase: nat)
    requires Partition(c) && t < |c.own|
    ensures Length(c, t, phase) + 2 < PhaseWork(c)
  {
    OwnBound(c, t);
  }

  lemma WorkMoves(c: Config, s: State, t: nat)
    requires t < |c.own| && |s.threads| == |c.own| && Partition(c)
    ensures s.threads[t].pos < Length(c, t, s.threads[t].phase) ==>
              Work(c, s, t).pos == s.threads[t].pos + 1 && Work(c, s, t).done == s.threads[t].done
  {
    hide Partition, FindRoot, Reached;
  }

  function LastPhase(c: Config): nat { 2 * |c.refs| + 5 }

  lemma PhaseBound(c: Config, t: nat, me: Thread)
    requires Partition(c) && t < |c.own| && Holds(c, t, me)
    ensures me.phase <= LastPhase(c) && Progress(c, me) <= (LastPhase(c) + 1) * PhaseWork(c)
  {
    hide Partition, Next, Black, Current, Level, PhaseWork;
    if IsJoin(me.phase) {
      LevelBound(c.refs, Looked(c), Round(me.phase));
    } else if IsScan(me.phase) && me.phase >= 5 {
      LevelBound(c.refs, Looked(c), Round(me.phase) - 1);
    }
    LengthBound(c, t, me.phase);
    AtMost(me.phase + 1, LastPhase(c) + 1, PhaseWork(c));
    NextPhaseProgress(c, me.phase);
  }

  lemma AtMost(a: nat, b: nat, w: nat)
    requires a <= b
    ensures a * w <= b * w
  {
  }

  lemma {:induction false} ProgressBound(c: Config, threads: seq<Thread>, bound: nat)
    requires forall t :: 0 <= t < |threads| ==> Progress(c, threads[t]) <= bound
    ensures TotalProgress(c, threads) <= |threads| * bound
  {
    hide Progress;
    if threads != [] {
      ProgressBound(c, threads[..|threads| - 1], bound);
      assert |threads| * bound == (|threads| - 1) * bound + bound;
    }
  }

  lemma {:induction false} RunProgress(c: Config, ts: seq<nat>, ss: seq<State>, i: nat)
    requires IsRun(c, ts, ss) && i < |ss|
    ensures TotalProgress(c, ss[i].threads) >= i
  {
    hide Start, Inv, Enabled, Step, TotalProgress, Partition;
    if i > 0 {
      RunProgress(c, ts, ss, i - 1);
      RunInv(c, ts, ss, i - 1);
      RunStep(c, ts, ss, i - 1, i);
      StepProgress(c, ss[i - 1], ts[i - 1]);
    }
  }

  /** The loop terminates: no run, however the threads are interleaved, is longer than this. */
  lemma RunsEnd(c: Config, ts: seq<nat>, ss: seq<State>)
    requires IsRun(c, ts, ss)
    ensures |ts| <= |c.own| * ((2 * |c.refs| + 6) * (|c.refs| + 2 * |c.own| + 4))
  {
    hide Start, Inv, Holds, Partition, TotalProgress, Progress, Step, Enabled;
    var last := ss[|ts|];
    RunProgress(c, ts, ss, |ts|);
    RunInv(c, ts, ss, |ts|);
    HoldsAt(c, last, 0);
    forall t | 0 <= t < |c.own| ensures Progress(c, last.threads[t]) <= (LastPhase(c) + 1) * PhaseWork(c) {
      HoldsAt(c, last, t);
      PhaseBound(c, t, last.threads[t]);
    }
    ProgressBound(c, last.threads, (LastPhase(c) + 1) * PhaseWork(c));
  }

  // ---- runs end with all threads done

  lemma RunGrows(c: Config, ts: seq<nat>, ss: seq<State>, t: nat, s: State, longer: seq<nat>, more: seq<State>)
    requires IsRun(c, ts, ss) && Enabled(c, ss[|ts|], t) && s == Step(c, ss[|ts|], t)
    requires longer == ts + [t] && more == ss + [s]
    ensures IsRun(c, longer, more)
  {
    hide Partition, Start, Enabled, Step;
    forall i, j | 0 <= i < |longer| && j == i + 1 ensures Moves(c, more[i], longer[i], more[j]) {
      assert more[i] == ss[i];
      if i < |ts| {
        RunStep(c, ts, ss, i, j);
        assert longer[i] == ts[i] && more[j] == ss[j];
      } else {
        assert longer[i] == t && more[j] == s;
      }
    }
    assert more[0] == ss[0];
  }

  /** Every run can be continued until all threads have left the loop. */
  lemma {:induction false} RunsComplete(c: Config, ts: seq<nat>, ss: seq<State>) returns (all: seq<nat>, states: seq<State>)
    requires IsRun(c, ts, ss)
    ensures ts <= all && ss <= states && IsRun(c, all, states) && AllDone(states[|all|])
    decreases |c.own| * ((2 * |c.refs| + 6) * (|c.refs| + 2 * |c.own| + 4)) - |ts|
  {
    hide Partition, Start, Enabled, Step, AllDone;
    RunsEnd(c, ts, ss);
    if AllDone(ss[|ts|]) {
      all, states := ts, ss;
    } else {
      NoDeadlock(c, ts, ss, |ts|);
      var t :| Enabled(c, ss[|ts|], t);
      var longer, more := ts + [t], ss + [Step(c, ss[|ts|], t)];
      RunGrows(c, ts, ss, t, Step(c, ss[|ts|], t), longer, more);
      RunsEnd(c, longer, more);
      all, states := RunsComplete(c, longer, more);
    }
  }

  /**
   * Sources 1 and 2 share a block, and only the target of 2 has data: source 1 is processed all the same, with a slot
   * of the temporary table that was never written.
   */
  lemma ProcessedWithoutData() returns (c: Config, ts: seq<nat>, ss: seq<State>)
    ensures c.refs == map[1 := 300, 2 := 301] && c.data == {301}
    ensures IsRun(c, ts, ss) && AllDone(ss[|ts|]) && ss[|ts|].log[(1, 1)] == 1 && !OnlyWithData(c, ss[|ts|].log)
  {
    c := Config(map[1 := 300, 2 := 301], {301}, [[1, 2]]);
    ExamplePartition(c);
    var start := State([Thread(0, false, 0, false, {}, {}, {}, {})], 0, multiset{});
    ts, ss := RunsComplete(c, [], [start]);
    hide IsRun, AllDone;
    ProcessedByLevel(c, ts, ss, 1, 1);
    ExampleReaches(c);
    assert (1, 1) in ss[|ts|].log;
  }

  lemma ExamplePartition(c: Config)
    requires c == Config(map[1 := 300, 2 := 301], {301}, [[1, 2]])
    ensures Partition(c)
  {
    assert c.own[0] == [1, 2] && 1 in c.own[0] && 2 in c.own[0];
  }

  lemma ExampleReaches(c: Config)
    requires c == Config(map[1 := 300, 2 := 301], {301}, [[1, 2]])
    ensures ReachesRoot(c, 1, 1)
  {
    assert Ends(c.refs, 300, 0);
    assert 2 in c.refs && BlockOf(2) == BlockOf(1) && c.refs[2] in c.data;
    assert 1 in Looked(c);
    assert Follow(c.refs, 1, 0) == Options.Some(1);
  }
}
