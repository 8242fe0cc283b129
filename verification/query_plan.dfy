/** From a statement to its operator tree, and what running the tree calls the system on. */
module QueryPlan {
  import opened Options
  import opened TableIters
  import opened QueryExec
  import opened QueryMeaning

  /**
   * One match of a statement: an entity match, or an expansion of the reference `expand`. `written` are the types the
   * system does not just read.
   */
  datatype EntityMatch = EntityMatch(comps: seq<string>, hasTags: seq<string>, hasNotTags: seq<string>, filters: seq<nat>,
                                     expand: Option<string>, written: set<string>)

  // ---- the tree

  function Joined(comps: seq<string>): Op
    requires comps != []
  {
    if |comps| == 1 then Scan(comps[0]) else Join(Joined(comps[..|comps| - 1]), Scan(comps[|comps| - 1]))
  }

  function TagChain(op: Op, tags: seq<string>, has: bool, onColumn: bool): Op {
    if tags == [] then op else TagFilter(TagChain(op, tags[..|tags| - 1], has, onColumn), tags[|tags| - 1], has, onColumn)
  }

  /** First the forbidden tags, then the required ones. */
  function TagFilters(op: Op, m: EntityMatch, onColumn: bool): Op {
    TagChain(TagChain(op, m.hasNotTags, false, onColumn), m.hasTags, true, onColumn)
  }

  function PredicateChain(op: Op, filters: seq<nat>): Op {
    if filters == [] then op else PredicateFilter(PredicateChain(op, filters[..|filters| - 1]), filters[|filters| - 1])
  }

  /** The operator of one match alone. */
  function LocalRoot(m: EntityMatch): Option<Op> {
    if m.comps != [] then
      var local := TagFilters(Joined(m.comps), m, false);
      if m.expand.Some? then Some(Gather(local, RefScan(m.expand.value))) else Some(local)
    else if m.expand.Some? then Some(TagFilters(RefScan(m.expand.value), m, true))
    else None
  }

  /** The plan of the matches, the last one first. */
  function PlanOf(ms: seq<EntityMatch>): Option<Op> {
    if ms == [] then None
    else
      var root, local := PlanOf(ms[1..]), LocalRoot(ms[0]);
      var joined :=
        if root.None? then local
        else if local.None? then None
        else if ms[0].comps == [] then Some(LeftFilterJoin(root.value, local.value))
        else Some(Join(root.value, local.value));
      if joined.None? then None else Some(PredicateChain(joined.value, ms[0].filters))
  }

  /** The system writes a component of the matched entity that it reads through the reference. */
  predicate Cascades(m: EntityMatch, last: EntityMatch) {
    exists j :: 0 <= j < |m.comps| && m.comps[j] in last.comps && m.comps[j] in last.written
  }

  /** The choice between a gather and a cascading one. */
  method ChoosesCascading(m: EntityMatch, last: EntityMatch) returns (cascading: bool)
    ensures cascading == Cascades(m, last)
  {
    cascading := false;
    var j := 0;
    while j < |m.comps|
      invariant 0 <= j <= |m.comps|
      invariant cascading <==> exists i :: 0 <= i < j && m.comps[i] in last.comps && m.comps[i] in last.written
    {
      var k := 0;
      while k < |last.comps| && !(last.comps[k] in last.written && m.comps[j] == last.comps[k])
        invariant 0 <= k <= |last.comps|
        invariant m.comps[j] in last.comps[..k] ==> m.comps[j] !in last.written
      {
        k := k + 1;
      }
      if k < |last.comps| { cascading := true; }
      j := j + 1;
    }
  }

  /**
   * The last match selects components of the entity itself, the others expand references, none of them cascading.
   */
  predicate StmtOk(ms: seq<EntityMatch>) {
    && ms != [] && ms[|ms| - 1].comps != [] && ms[|ms| - 1].expand.None?
    && forall i :: 0 <= i < |ms| - 1 ==> ms[i].expand.Some? && !Cascades(ms[i], ms[|ms| - 1])
  }

  // ---- what a statement asks for

  predicate Enabled(db: Db, ctype: string, e: nat) { TagHas(TableOf(db.tables, ctype), e) }

  predicate Tagged(db: Db, tag: string, e: nat) { TagHas(TableOf(db.tags, tag), e) }

  /** The entity a match talks about: the matched entity, or the one it refers to. */
  function Subject(db: Db, m: EntityMatch, e: nat): Option<nat> {
    if m.expand.Some? then RefTarget(TableOf(db.refs, m.expand.value), e) else Some(e)
  }

  /** All components enabled, all required tags, none of the forbidden ones. */
  predicate Fits(db: Db, m: EntityMatch, x: nat) {
    && (forall i :: 0 <= i < |m.comps| ==> Enabled(db, m.comps[i], x))
    && (forall i :: 0 <= i < |m.hasTags| ==> Tagged(db, m.hasTags[i], x))
    && (forall i :: 0 <= i < |m.hasNotTags| ==> !Tagged(db, m.hasNotTags[i], x))
  }

  /** The pointers the system is given: those of the matched entity first, then those of the expanded ones. */
  function Params(db: Db, ms: seq<EntityMatch>, e: nat): seq<Ptr> {
    if ms == [] then []
    else
      var x := Subject(db, ms[0], e);
      Params(db, ms[1..], e) + (if x.Some? then Pointers(ms[0].comps, x.value) else [])
  }

  predicate Qualifies(db: Db, ms: seq<EntityMatch>, e: nat) {
    ms == []
    || (var x := Subject(db, ms[0], e);
        && Qualifies(db, ms[1..], e) && x.Some? && Fits(db, ms[0], x.value)
        && forall i :: 0 <= i < |ms[0].filters| ==> db.holds(ms[0].filters[i], Params(db, ms, e)))
  }

  // ---- which statements cascade, and which make threads wait

  lemma {:induction false} PointersHold(types: seq<string>, e: nat, q: Ptr)
    ensures q in Pointers(types, e) <==> q.entity == e && q.ctype in types
  {
    if types != [] { PointersHold(types[1..], e, q); }
  }

  /** A match cascades exactly when the call for some entity writes what the call for an entity that refers to it reads. */
  lemma CascadesExact(m: EntityMatch, last: EntityMatch)
    ensures Cascades(m, last) <==>
              exists x, q: Ptr :: q in Pointers(m.comps, x) && q in Pointers(last.comps, x) && q.ctype in last.written
  {
    hide Pointers;
    if Cascades(m, last) {
      var j :| 0 <= j < |m.comps| && m.comps[j] in last.comps && m.comps[j] in last.written;
      var q := Ptr(m.comps[j], 0);
      PointersHold(m.comps, 0, q);
      PointersHold(last.comps, 0, q);
    }
    if x, q: Ptr :| q in Pointers(m.comps, x) && q in Pointers(last.comps, x) && q.ctype in last.written {
      PointersHold(m.comps, x, q);
      PointersHold(last.comps, x, q);
      var j :| 0 <= j < |m.comps| && m.comps[j] == q.ctype;
    }
  }

  /** So without a cascading match no call reads through a reference what another call of the statement writes. */
  lemma CallsApart(db: Db, ms: seq<EntityMatch>, writer: nat, reader: nat, i: nat, q: Ptr)
    requires StmtOk(ms) && i < |ms| - 1 && Subject(db, ms[i], reader).Some?
    requires q in Pointers(ms[|ms| - 1].comps, writer) && q.ctype in ms[|ms| - 1].written
    ensures q !in Pointers(ms[i].comps, Subject(db, ms[i], reader).value)
  {
    hide Pointers, Cascades;
    CascadesExact(ms[i], ms[|ms| - 1]);
    PointersHold(ms[|ms| - 1].comps, writer, q);
    PointersHold(ms[i].comps, Subject(db, ms[i], reader).value, q);
  }

  /** Somewhere in the tree the tables of all threads are looked up. */
  predicate Gathers(op: Op) {
    match op
    case Scan(_) => false
    case RefScan(_) => false
    case Join(l, r) => Gathers(l) || Gathers(r)
    case LeftFilterJoin(l, r) => Gathers(l) || Gathers(r)
    case TagFilter(child, _, _, _) => Gathers(child)
    case PredicateFilter(child, _) => Gathers(child)
    case Gather(_, _) => true
  }

  lemma {:induction false} NoGatherInChains(op: Op, tags: seq<string>, has: bool, onColumn: bool, filters: seq<nat>)
    ensures Gathers(TagChain(op, tags, has, onColumn)) <==> Gathers(op)
    ensures Gathers(PredicateChain(op, filters)) <==> Gathers(op)
    decreases |tags| + |filters|
  {
    if tags != [] { NoGatherInChains(op, tags[..|tags| - 1], has, onColumn, filters); }
    if filters != [] { NoGatherInChains(op, tags, has, onColumn, filters[..|filters| - 1]); }
  }

  lemma {:induction false} NoGatherInScans(comps: seq<string>)
    requires comps != []
    ensures !Gathers(Joined(comps))
  {
    if |comps| > 1 { NoGatherInScans(comps[..|comps| - 1]); }
  }

  lemma JoinedGathers(l: Op, r: Op)
    ensures Gathers(Join(l, r)) <==> Gathers(l) || Gathers(r)
    ensures Gathers(LeftFilterJoin(l, r)) <==> Gathers(l) || Gathers(r)
  {
  }

  lemma LocalGathers(m: EntityMatch)
    requires LocalRoot(m).Some?
    ensures Gathers(LocalRoot(m).value) <==> m.comps != [] && m.expand.Some?
  {
    hide TagChain, Joined;
    if m.comps != [] {
      NoGatherInScans(m.comps);
      var op := Joined(m.comps);
      NoGatherInChains(op, m.hasNotTags, false, false, []);
      NoGatherInChains(TagChain(op, m.hasNotTags, false, false), m.hasTags, true, false, []);
    } else {
      var op := RefScan(m.expand.value);
      NoGatherInChains(op, m.hasNotTags, false, true, []);
      NoGatherInChains(TagChain(op, m.hasNotTags, false, true), m.hasTags, true, true, []);
    }
  }

  // ---- the tree means what the statement asks for

  lemma {:induction false} JoinedShape(comps: seq<string>)
    requires comps != []
    ensures OpOk(Joined(comps)) && !IsRef(Joined(comps)) && Types(Joined(comps)) == comps
  {
    var n := |comps| - 1;
    if n > 0 {
      JoinedShape(comps[..n]);
      assert comps == comps[..n] + [comps[n]];
    }
  }

  lemma {:induction false} JoinedSees(db: Db, comps: seq<string>, e: nat)
    requires comps != []
    ensures Sees(db, Joined(comps), e) <==> forall i :: 0 <= i < |comps| ==> Enabled(db, comps[i], e)
  {
    hide TagHas;
    var n := |comps| - 1;
    if n > 0 {
      JoinedSees(db, comps[..n], e);
      assert forall i :: 0 <= i < n ==> comps[..n][i] == comps[i];
    }
  }

  lemma {:induction false} JoinedArgs(db: Db, comps: seq<string>, e: nat)
    requires comps != []
    ensures ArgsOf(db, Joined(comps), e) == Pointers(comps, e)
  {
    var n := |comps| - 1;
    OnePointer(comps[n], e);
    if n == 0 {
      assert comps == [comps[0]];
    } else {
      JoinedArgs(db, comps[..n], e);
      assert comps == comps[..n] + [comps[n]];
      PointersAppend(comps[..n], [comps[n]], e);
    }
  }

  lemma OnePointer(t: string, e: nat)
    ensures Pointers([t], e) == [Ptr(t, e)]
  {
    assert [t][1..] == [];
  }

  lemma JoinedMeans(db: Db, comps: seq<string>, e: nat)
    requires comps != []
    ensures OpOk(Joined(comps)) && !IsRef(Joined(comps)) && Types(Joined(comps)) == comps
    ensures Sees(db, Joined(comps), e) <==> forall i :: 0 <= i < |comps| ==> Enabled(db, comps[i], e)
    ensures ArgsOf(db, Joined(comps), e) == Pointers(comps, e)
  {
    JoinedShape(comps);
    JoinedSees(db, comps, e);
    JoinedArgs(db, comps, e);
  }

  lemma {:induction false} PointersAppend(a: seq<string>, b: seq<string>, e: nat)
    ensures Pointers(a + b, e) == Pointers(a, e) + Pointers(b, e)
  {
    if a == [] {
      assert a + b == b;
    } else {
      assert (a + b)[1..] == a[1..] + b;
      PointersAppend(a[1..], b, e);
    }
  }

  lemma {:induction false} TagChainMeans(db: Db, op: Op, tags: seq<string>, has: bool, onColumn: bool, e: nat)
    requires OpOk(op) && (onColumn <==> IsRef(op))
    ensures var chain := TagChain(op, tags, has, onColumn);
      && OpOk(chain) && (IsRef(chain) <==> IsRef(op)) && Types(chain) == Types(op)
      && Target(db, chain, e) == Target(db, op, e) && ArgsOf(db, chain, e) == ArgsOf(db, op, e)
      && (Sees(db, chain, e) <==>
            Sees(db, op, e) && forall i :: 0 <= i < |tags| ==>
              if onColumn then Target(db, op, e).Some? && Tagged(db, tags[i], Target(db, op, e).value) == has
              else Tagged(db, tags[i], e) == has)
  {
    if tags != [] { TagChainMeans(db, op, tags[..|tags| - 1], has, onColumn, e); }
  }

  lemma {:induction false} PredicateChainMeans(db: Db, op: Op, filters: seq<nat>, e: nat)
    requires OpOk(op) && !IsRef(op)
    ensures var chain := PredicateChain(op, filters);
      && OpOk(chain) && !IsRef(chain) && ArgsOf(db, chain, e) == ArgsOf(db, op, e)
      && (Sees(db, chain, e) <==> Sees(db, op, e) && forall i :: 0 <= i < |filters| ==> db.holds(filters[i], ArgsOf(db, op, e)))
  {
    if filters != [] { PredicateChainMeans(db, op, filters[..|filters| - 1], e); }
  }

  /** The operator of a match lets exactly the entities through whose subject fits. */
  lemma LocalMeans(db: Db, m: EntityMatch, e: nat)
    requires m.comps != [] || m.expand.Some?
    ensures LocalRoot(m).Some? && OpOk(LocalRoot(m).value) && (IsRef(LocalRoot(m).value) <==> m.comps == [])
    ensures Sees(db, LocalRoot(m).value, e) <==> Subject(db, m, e).Some? && Fits(db, m, Subject(db, m, e).value)
    ensures Subject(db, m, e).Some? ==> ArgsOf(db, LocalRoot(m).value, e) == Pointers(m.comps, Subject(db, m, e).value)
  {
    hide TagChain, Joined, TagHas, Pointers;
    var op := LocalRoot(m).value;
    var x := Subject(db, m, e);
    if m.comps != [] {
      var at := if x.Some? then x.value else e;
      TagFiltersMean(db, Joined(m.comps), m, at);
      JoinedMeans(db, m.comps, at);
    } else {
      RefFiltersMean(db, m, e);
      NoPointers(m.comps, if x.Some? then x.value else e);
    }
  }

  lemma NoPointers(comps: seq<string>, e: nat)
    ensures comps == [] ==> Pointers(comps, e) == []
  {
  }

  lemma TagFiltersMean(db: Db, op: Op, m: EntityMatch, e: nat)
    requires op == (if m.comps != [] then Joined(m.comps) else op) && m.comps != []
    ensures var chain := TagFilters(op, m, false);
      && OpOk(chain) && !IsRef(chain) && Types(chain) == m.comps && ArgsOf(db, chain, e) == Pointers(m.comps, e)
      && (Sees(db, chain, e) <==> Fits(db, m, e))
  {
    hide TagChain, Joined, TagHas, Pointers, Enabled;
    JoinedMeans(db, m.comps, e);
    TagChainMeans(db, op, m.hasNotTags, false, false, e);
    TagChainMeans(db, TagChain(op, m.hasNotTags, false, false), m.hasTags, true, false, e);
  }

  lemma RefFiltersMean(db: Db, m: EntityMatch, e: nat)
    requires m.comps == [] && m.expand.Some?
    ensures var chain := TagFilters(RefScan(m.expand.value), m, true);
      && OpOk(chain) && IsRef(chain) && ArgsOf(db, chain, e) == []
      && (Sees(db, chain, e) <==> Subject(db, m, e).Some? && Fits(db, m, Subject(db, m, e).value))
  {
    hide TagChain, TagHas, RefTarget;
    var op := RefScan(m.expand.value);
    TagChainMeans(db, op, m.hasNotTags, false, true, e);
    TagChainMeans(db, TagChain(op, m.hasNotTags, false, true), m.hasTags, true, true, e);
  }

  /** The plan lets exactly the qualifying entities through, with the parameters in system order. */
  lemma {:induction false} PlanMeans(db: Db, ms: seq<EntityMatch>, e: nat)
    requires StmtOk(ms)
    ensures PlanOf(ms).Some? && OpOk(PlanOf(ms).value) && !IsRef(PlanOf(ms).value)
    ensures Sees(db, PlanOf(ms).value, e) <==> Qualifies(db, ms, e)
    ensures Qualifies(db, ms, e) ==> ArgsOf(db, PlanOf(ms).value, e) == Params(db, ms, e)
  {
    hide LocalRoot, Fits, PredicateChain, Pointers, Subject;
    var m, rest := ms[0], ms[1..];
    LocalMeans(db, m, e);
    var local := LocalRoot(m).value;
    if rest == [] {
      PredicateChainMeans(db, local, m.filters, e);
      LastMatch(db, m, e);
      assert ms == [m];
    } else {
      PlanMeans(db, rest, e);
      var root := PlanOf(rest).value;
      var joined := if m.comps == [] then LeftFilterJoin(root, local) else Join(root, local);
      PredicateChainMeans(db, joined, m.filters, e);
      if m.comps == [] { NoPointers(m.comps, if Subject(db, m, e).Some? then Subject(db, m, e).value else e); }
      var params := Params(db, rest, e);
      assert params + [] == params;
      assert Qualifies(db, rest, e) && Subject(db, m, e).Some? ==> ArgsOf(db, joined, e) == Params(db, ms, e);
    }
  }

  lemma LastMatch(db: Db, m: EntityMatch, e: nat)
    ensures Params(db, [], e) == [] && Qualifies(db, [], e)
    ensures m.expand.None? ==> Subject(db, m, e) == Some(e) && Params(db, [m], e) == Pointers(m.comps, e)
  {
    assert [m][1..] == [];
  }

  // ---- calling the system

  datatype Call = Call(entity: nat, args: seq<Ptr>)

  /** The calls for the first `n` slots of a cluster. */
  function CallsOf(c: Cluster, n: nat): seq<Call> {
    if n == 0 then []
    else CallsOf(c, n - 1) + (if n - 1 in c.enabled then [Call(Id(c.block, n - 1), Args(c.columns, c.block, n - 1))] else [])
  }

  /**
   * The emitted loop over a cluster: a full cluster is walked without tests. How a column is passed was decided from the
   * operator's columns when the code was emitted.
   */
  method Foreach(kinds: seq<ColumnKind>, c: Cluster, numSet: nat) returns (calls: seq<Call>)
    requires (forall i :: i in c.enabled ==> i < BLOCK) && numSet == |c.enabled| && KindsMatch(c.columns, kinds)
    ensures calls == CallsOf(c, BLOCK)
  {
    hide PassedAll, Args, KindsMatch;
    forall i ensures PassedAll(kinds, c.columns, c.block, i) == Args(c.columns, c.block, i) { PassedIsArgs(c.columns, kinds, c.block, i); }
    calls := [];
    var i := 0;
    if numSet == BLOCK {
      AllEnabled(c.enabled);
      while i < BLOCK
        invariant 0 <= i <= BLOCK && calls == CallsOf(c, i)
      {
        calls := calls + [Call(Id(c.block, i), PassedAll(kinds, c.columns, c.block, i))];
        i := i + 1;
      }
    } else {
      while i < BLOCK
        invariant 0 <= i <= BLOCK && calls == CallsOf(c, i)
      {
        if i in c.enabled { calls := calls + [Call(Id(c.block, i), PassedAll(kinds, c.columns, c.block, i))]; }
        i := i + 1;
      }
    }
  }

  lemma AllEnabled(enabled: set<nat>)
    requires (forall i :: i in enabled ==> i < BLOCK) && |enabled| == BLOCK
    ensures forall i: nat :: i < BLOCK ==> i in enabled
  {
    forall i: nat | i < BLOCK ensures i in enabled {
      if i !in enabled { FewerThan(enabled + {i}, BLOCK); }
    }
  }

  lemma {:induction false} FewerThan(s: set<nat>, n: nat)
    requires forall i :: i in s ==> i < n
    ensures |s| <= n
  {
    if n > 0 { FewerThan(s - {n - 1}, n - 1); } else { assert s == {}; }
  }

  function AllCalls(stream: seq<Cluster>): seq<Call> {
    if stream == [] then [] else CallsOf(stream[0], BLOCK) + AllCalls(stream[1..])
  }

  lemma {:induction false} CallsMembers(c: Cluster, n: nat, call: Call)
    requires n <= BLOCK
    ensures call in CallsOf(c, n) <==>
              exists i: nat :: i < n && i in c.enabled && call == Call(Id(c.block, i), Args(c.columns, c.block, i))
  {
    if n > 0 { CallsMembers(c, n - 1, call); }
  }

  lemma Split(block: nat, i: nat)
    requires i < BLOCK
    ensures Id(block, i) / BLOCK == block && Id(block, i) % BLOCK == i
  {
  }

  lemma CallsFor(c: Cluster, call: Call)
    requires forall i :: i in c.enabled ==> i < BLOCK
    ensures call in CallsOf(c, BLOCK) <==>
              && call.entity / BLOCK == c.block && call.entity % BLOCK in c.enabled
              && call.args == Args(c.columns, c.block, call.entity % BLOCK)
  {
    hide Args, Id;
    CallsMembers(c, BLOCK, call);
    Whole(call.entity);
    if i: nat :| i < BLOCK && i in c.enabled && call == Call(Id(c.block, i), Args(c.columns, c.block, i)) {
      Split(c.block, i);
    }
  }

  lemma {:induction false} AllCallsMembers(stream: seq<Cluster>, call: Call)
    requires forall i, j :: 0 <= i < j < |stream| ==> stream[i].block != stream[j].block
    requires forall c :: c in stream ==> forall o :: o in c.enabled ==> o < BLOCK
    ensures call in AllCalls(stream) <==>
              var c := Lookup(stream, call.entity / BLOCK);
              InCluster(c, call.entity) && call.args == Args(c.value.columns, c.value.block, call.entity % BLOCK)
  {
    hide Args;
    if stream != [] {
      CallsFor(stream[0], call);
      AllCallsMembers(stream[1..], call);
      LookupIn(stream[1..], call.entity / BLOCK);
      if Lookup(stream[1..], call.entity / BLOCK).Some? {
        var i :| 0 <= i < |stream[1..]| && stream[1..][i] == Lookup(stream[1..], call.entity / BLOCK).value;
        assert stream[i + 1].block == call.entity / BLOCK;
      }
    }
  }

  ghost predicate NoEntityTwice(calls: seq<Call>) {
    forall i, j :: 0 <= i < j < |calls| ==> calls[i].entity != calls[j].entity
  }

  /** The calls for one block come in the order of its slots. */
  ghost predicate SlotOrder(calls: seq<Call>) {
    forall i, j :: 0 <= i < j < |calls| && calls[i].entity / BLOCK == calls[j].entity / BLOCK ==> calls[i].entity < calls[j].entity
  }

  lemma {:induction false} ClusterOnce(c: Cluster, n: nat)
    requires n <= BLOCK
    ensures NoEntityTwice(CallsOf(c, n)) && SlotOrder(CallsOf(c, n))
    ensures forall i :: 0 <= i < |CallsOf(c, n)| ==> CallsOf(c, n)[i].entity < Id(c.block, n) && CallsOf(c, n)[i].entity / BLOCK == c.block
  {
    hide Args;
    if n > 0 {
      ClusterOnce(c, n - 1);
      Split(c.block, n - 1);
    }
  }

  lemma {:induction false} StreamOnce(stream: seq<Cluster>)
    requires forall i, j :: 0 <= i < j < |stream| ==> stream[i].block != stream[j].block
    ensures NoEntityTwice(AllCalls(stream)) && SlotOrder(AllCalls(stream))
    ensures forall k :: 0 <= k < |AllCalls(stream)| ==> exists i :: 0 <= i < |stream| && stream[i].block == AllCalls(stream)[k].entity / BLOCK
  {
    hide CallsOf;
    if stream != [] {
      ClusterOnce(stream[0], BLOCK);
      StreamOnce(stream[1..]);
      var front, rest := CallsOf(stream[0], BLOCK), AllCalls(stream[1..]);
      forall k | 0 <= k < |rest|
        ensures exists i :: 0 < i < |stream| && stream[i].block == rest[k].entity / BLOCK
      {
        var i :| 0 <= i < |stream[1..]| && stream[1..][i].block == rest[k].entity / BLOCK;
        assert stream[i + 1].block == rest[k].entity / BLOCK;
      }
      forall k | 0 <= k < |front| + |rest|
        ensures exists i :: 0 <= i < |stream| && stream[i].block == (front + rest)[k].entity / BLOCK
      {
        if k < |front| { assert stream[0].block == front[k].entity / BLOCK; }
      }
    }
  }

  /**
   * The calls made by one thread of a statement's plan: exactly the qualifying entities of the thread's blocks, each
   * once, with the system's parameters in order.
   */
  lemma StatementCalls(db: Db, ms: seq<EntityMatch>, p: Part, call: Call)
    requires StmtOk(ms) && DbOk(db, p.stride) && PartOk(p)
    ensures PlanOf(ms).Some?
    ensures NoEntityTwice(AllCalls(Run(db, PlanOf(ms).value, p))) && SlotOrder(AllCalls(Run(db, PlanOf(ms).value, p)))
    ensures call in AllCalls(Run(db, PlanOf(ms).value, p)) <==>
              && Qualifies(db, ms, call.entity) && call.args == Params(db, ms, call.entity)
              && BlockOffset(call.entity / BLOCK, p.chunkSize, p.stride) == p.offset
  {
    hide Run, Qualifies, Params, PlanOf, AllCalls, Args, ArgsOf, Sees, BlockOffset, DbOk;
    PlanMeans(db, ms, call.entity);
    var op := PlanOf(ms).value;
    RunCarries(db, op, p, call.entity);
    StreamOnce(Run(db, op, p));
    AllCallsMembers(Run(db, op, p), call);
  }

  /** Thread `u` makes the call. */
  ghost predicate Calls(db: Db, ms: seq<EntityMatch>, p: Part, u: nat, call: Call)
    requires PartOk(p) && PlanOf(ms).Some?
  {
    u < p.stride && call in AllCalls(Run(db, PlanOf(ms).value, p.(offset := u)))
  }

  /** Over all threads of a frame, the system is called for a qualifying entity by one thread and once, and for no other. */
  lemma ExactlyOneThread(db: Db, ms: seq<EntityMatch>, p: Part, e: nat)
    requires StmtOk(ms) && DbOk(db, p.stride) && PartOk(p)
    ensures PlanOf(ms).Some?
    ensures Qualifies(db, ms, e) <==> exists u :: Calls(db, ms, p, u, Call(e, Params(db, ms, e)))
    ensures forall u, v, a, b :: Calls(db, ms, p, u, Call(e, a)) && Calls(db, ms, p, v, Call(e, b)) ==> u == v && a == b
  {
    hide Run, Qualifies, Params, PlanOf, AllCalls, Args, ArgsOf, Sees, DbOk, BlockOffset;
    PlanMeans(db, ms, e);
    var op, own := PlanOf(ms).value, BlockOffset(e / BLOCK, p.chunkSize, p.stride);
    OffsetBelow(e / BLOCK, p);
    forall u: nat, a ensures Calls(db, ms, p, u, Call(e, a)) <==> Qualifies(db, ms, e) && a == Params(db, ms, e) && own == u {
      if u < p.stride { StatementCalls(db, ms, p.(offset := u), Call(e, a)); }
    }
    if Qualifies(db, ms, e) { assert Calls(db, ms, p, own, Call(e, Params(db, ms, e))); }
  }

  // ---- the order of the system's parameters

  /** The component types of a match with `size` components, when later parameters are already `consumed`. */
  method ProcessMatch(system: seq<string>, consumed: nat, size: nat) returns (comps: seq<string>)
    requires consumed + size <= |system|
    ensures comps == MatchComps(system, consumed, size)
  {
    comps := [];
    var begin, end := |system| - (consumed + size), |system| - consumed;
    var i := begin;
    while i < end
      invariant begin <= i <= end && comps == system[begin..i]
    {
      comps := comps + [system[i]];
      i := i + 1;
    }
  }

  function MatchComps(system: seq<string>, consumed: nat, size: nat): seq<string>
    requires consumed + size <= |system|
  {
    system[|system| - (consumed + size)..|system| - consumed]
  }

  function Sizes(ms: seq<EntityMatch>): nat {
    if ms == [] then 0 else |ms[0].comps| + Sizes(ms[1..])
  }

  /** Every match got its types from the end of what was left of the system's parameters. */
  ghost predicate Assigned(system: seq<string>, ms: seq<EntityMatch>, consumed: nat) {
    ms == []
    || (consumed + |ms[0].comps| <= |system| && ms[0].comps == MatchComps(system, consumed, |ms[0].comps|)
        && Assigned(system, ms[1..], consumed + |ms[0].comps|))
  }

  function TypesOf(args: seq<Ptr>): seq<string> {
    if args == [] then [] else [args[0].ctype] + TypesOf(args[1..])
  }

  lemma {:induction false} TypesAppend(a: seq<Ptr>, b: seq<Ptr>)
    ensures TypesOf(a + b) == TypesOf(a) + TypesOf(b)
  {
    if a == [] {
      assert a + b == b;
    } else {
      assert (a + b)[1..] == a[1..] + b;
      TypesAppend(a[1..], b);
    }
  }

  lemma {:induction false} TypesOfPointers(comps: seq<string>, e: nat)
    ensures TypesOf(Pointers(comps, e)) == comps
  {
    if comps != [] {
      TypesOfPointers(comps[1..], e);
      assert Pointers(comps, e)[1..] == Pointers(comps[1..], e);
    }
  }

  /** A qualifying entity's pointers are of exactly the types of the system's parameters, in their order. */
  lemma {:induction false} ParamsInSystemOrder(db: Db, system: seq<string>, ms: seq<EntityMatch>, consumed: nat, e: nat)
    requires Assigned(system, ms, consumed) && consumed + Sizes(ms) == |system| && Qualifies(db, ms, e)
    ensures TypesOf(Params(db, ms, e)) == system[..|system| - consumed]
  {
    if ms != [] {
      var m, rest := ms[0], ms[1..];
      ParamsInSystemOrder(db, system, rest, consumed + |m.comps|, e);
      var x := Subject(db, m, e).value;
      TypesAppend(Params(db, rest, e), Pointers(m.comps, x));
      TypesOfPointers(m.comps, x);
    }
  }
}
