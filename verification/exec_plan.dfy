/** The execution plan: the dependency graph of the statements and its acyclicity check. */
module ExecPlan {
  import opened Graphs
  import opened Frontiers

  datatype ComponentMatch = ComponentMatch(ctype: string, readOnly: bool)

  /** A statement: the component matches of its system, and its priority. */
  datatype Stmt = Stmt(matches: seq<ComponentMatch>, priority: nat)

  predicate Writes(s: Stmt, t: string) {
    exists j :: 0 <= j < |s.matches| && s.matches[j].ctype == t && !s.matches[j].readOnly
  }

  predicate Touches(s: Stmt, t: string) {
    exists j :: 0 <= j < |s.matches| && s.matches[j].ctype == t
  }

  /** `a` has to wait for `b`: it reads what `b` writes, or both write and `a` is not more urgent. */
  predicate Dependent(a: Stmt, b: Stmt) {
    exists i :: 0 <= i < |a.matches| && Writes(b, a.matches[i].ctype)
                && (a.matches[i].readOnly || a.priority >= b.priority)
  }

  method IsDependent(a: Stmt, b: Stmt) returns (r: bool)
    ensures r == Dependent(a, b)
  {
    var written: seq<string> := [];
    var i := 0;
    while i < |b.matches|
      invariant 0 <= i <= |b.matches|
      invariant forall t :: t in written <==> exists j :: 0 <= j < i && b.matches[j].ctype == t && !b.matches[j].readOnly
    {
      if !b.matches[i].readOnly { written := written + [b.matches[i].ctype]; }
      i := i + 1;
    }
    i := 0;
    while i < |a.matches|
      invariant 0 <= i <= |a.matches|
      invariant forall t :: t in written <==> Writes(b, t)
      invariant forall k :: 0 <= k < i ==>
                  !(Writes(b, a.matches[k].ctype) && (a.matches[k].readOnly || a.priority >= b.priority))
    {
      var m := a.matches[i];
      var ii := 0;
      while ii < |written|
        invariant 0 <= ii <= |written|
        invariant m.ctype in written[..ii] ==> !m.readOnly && a.priority < b.priority
      {
        if m.ctype == written[ii] && m.readOnly { return true; }
        if m.ctype == written[ii] && a.priority >= b.priority { return true; }
        ii := ii + 1;
      }
      i := i + 1;
    }
    r := false;
  }

  // ---- the graph of a list of statements

  ghost predicate GraphOf(stmts: seq<Stmt>, g: Graph) {
    && |g.parents| == |stmts| && |g.children| == |stmts|
    && (forall u :: 0 <= u < |stmts| ==> Distinct(g.parents[u]) && Distinct(g.children[u]))
    && (forall u: nat, v: nat {:trigger v in g.children[u]} :: u < |stmts| ==>
          (v in g.children[u] <==> IsEdge(stmts, u, v)))
    && (forall u: nat, v: nat {:trigger v in g.parents[u]} :: u < |stmts| ==>
          (v in g.parents[u] <==> IsEdge(stmts, v, u)))
  }

  /** Statement `v` waits for statement `u`. */
  predicate IsEdge(stmts: seq<Stmt>, u: nat, v: nat) {
    u < |stmts| && v < |stmts| && v != u && Dependent(stmts[v], stmts[u])
  }

  lemma GraphIsWellFormed(stmts: seq<Stmt>, g: Graph)
    requires GraphOf(stmts, g)
    ensures WellFormed(g)
  {
    forall u: nat, i: nat | u < |g.children| && i < |g.children[u]| ensures g.children[u][i] < |g.children| {
      assert g.children[u][i] in g.children[u];
    }
    forall u: nat, i: nat | u < |g.parents| && i < |g.parents[u]| ensures g.parents[u][i] < |g.parents| {
      assert g.parents[u][i] in g.parents[u];
    }
  }

  predicate Reads(s: Stmt, t: string) {
    exists j :: 0 <= j < |s.matches| && s.matches[j].ctype == t && s.matches[j].readOnly
  }

  /** `a` has to do with a type that `b` writes. */
  ghost predicate MeetsWrites(a: Stmt, b: Stmt) {
    exists t :: Writes(b, t) && Touches(a, t)
  }

  ghost predicate ReadsWrites(a: Stmt, b: Stmt) {
    exists t :: Writes(b, t) && Reads(a, t)
  }

  /** Only a reader waits for a less urgent writer. */
  lemma DependentExact(a: Stmt, b: Stmt)
    ensures Dependent(a, b) <==> if a.priority >= b.priority then MeetsWrites(a, b) else ReadsWrites(a, b)
  {
    if a.priority >= b.priority {
      if t :| Writes(b, t) && Touches(a, t) {
        var j :| 0 <= j < |a.matches| && a.matches[j].ctype == t;
      }
      if Dependent(a, b) {
        var i :| 0 <= i < |a.matches| && Writes(b, a.matches[i].ctype) && (a.matches[i].readOnly || a.priority >= b.priority);
        assert Touches(a, a.matches[i].ctype);
      }
    } else {
      if t :| Writes(b, t) && Reads(a, t) {
        var j :| 0 <= j < |a.matches| && a.matches[j].ctype == t && a.matches[j].readOnly;
      }
      if Dependent(a, b) {
        var i :| 0 <= i < |a.matches| && Writes(b, a.matches[i].ctype) && (a.matches[i].readOnly || a.priority >= b.priority);
        assert Reads(a, a.matches[i].ctype);
      }
    }
  }

  /** Each of two statements writes what the other meets; at distinct priorities the more urgent one even reads it. */
  ghost predicate Deadlocked(a: Stmt, b: Stmt) {
    && MeetsWrites(a, b) && MeetsWrites(b, a)
    && (a.priority < b.priority ==> ReadsWrites(a, b)) && (b.priority < a.priority ==> ReadsWrites(b, a))
  }

  /** When two statements wait for each other: at equal priorities and at distinct ones. */
  lemma MutualWaitExact(a: Stmt, b: Stmt)
    ensures Dependent(a, b) && Dependent(b, a) <==> Deadlocked(a, b)
  {
    hide MeetsWrites, ReadsWrites, Dependent;
    DependentExact(a, b);
    DependentExact(b, a);
    ReadsMeets(a, b);
    ReadsMeets(b, a);
  }

  lemma ReadsMeets(a: Stmt, b: Stmt)
    ensures ReadsWrites(a, b) ==> MeetsWrites(a, b)
  {
    if t :| Writes(b, t) && Reads(a, t) {
      var j :| 0 <= j < |a.matches| && a.matches[j].ctype == t && a.matches[j].readOnly;
      assert Touches(a, t);
    }
  }

  /** A plan with two statements that wait for each other is refused. */
  lemma DeadlockedRefused(stmts: seq<Stmt>, g: Graph, u: nat, v: nat)
    requires GraphOf(stmts, g) && u < |stmts| && v < |stmts| && u != v && Deadlocked(stmts[u], stmts[v])
    ensures !Acyclic(g)
  {
    hide Dependent, Deadlocked;
    MutualWaitExact(stmts[u], stmts[v]);
    assert IsEdge(stmts, u, v) && IsEdge(stmts, v, u);
    assert v in g.children[u] && u in g.children[v];
    assert IsPath(g, [u, v, u]);
  }

  /** A plan of two statements is refused for no other reason. */
  lemma TwoRefusedExact(stmts: seq<Stmt>, g: Graph)
    requires GraphOf(stmts, g) && |stmts| == 2
    ensures !Acyclic(g) <==> Deadlocked(stmts[0], stmts[1])
  {
    hide Dependent, Deadlocked;
    MutualWaitExact(stmts[0], stmts[1]);
    if Deadlocked(stmts[0], stmts[1]) {
      DeadlockedRefused(stmts, g, 0, 1);
    } else {
      var rank := if IsEdge(stmts, 0, 1) then [1, 0] else [0, 1];
      forall u: nat, v: nat | u < 2 && v < 2 && Edge(g, u, v) ensures rank[u] > rank[v] {
        assert v in g.children[u] && IsEdge(stmts, u, v);
      }
      RankMeansAcyclic(g, rank);
    }
  }

  /** Two writers of one type with equal priorities wait for each other, so the plan is refused. */
  lemma EqualPriorityWritersCycle(stmts: seq<Stmt>, g: Graph, u: nat, v: nat, t: string)
    requires GraphOf(stmts, g) && u < |stmts| && v < |stmts| && u != v
    requires Writes(stmts[u], t) && Writes(stmts[v], t) && stmts[u].priority == stmts[v].priority
    ensures !Acyclic(g)
  {
    assert Touches(stmts[u], t) && Touches(stmts[v], t);
    assert Deadlocked(stmts[u], stmts[v]);
    DeadlockedRefused(stmts, g, u, v);
  }

  /** The edges between the new node `id` and the nodes before `i` are in place. */
  ghost predicate Linked(stmts: seq<Stmt>, was: Graph, g: Graph, id: nat, i: nat) {
    && i <= id && |g.parents| == |g.children| == |stmts| == id + 1 && |was.parents| == |was.children| == id
    && Distinct(g.parents[id]) && Distinct(g.children[id])
    && (forall v: nat :: v in g.parents[id] <==> v < i && Dependent(stmts[id], stmts[v]))
    && (forall v: nat :: v in g.children[id] <==> v < i && Dependent(stmts[v], stmts[id]))
    && (forall u :: i <= u < id ==> g.parents[u] == was.parents[u] && g.children[u] == was.children[u])
    && (forall u :: 0 <= u < i ==>
          && g.parents[u] == was.parents[u] + (if Dependent(stmts[u], stmts[id]) then [id] else [])
          && g.children[u] == was.children[u] + (if Dependent(stmts[id], stmts[u]) then [id] else []))
  }

  lemma LinkStart(stmts: seq<Stmt>, stmt: Stmt, was: Graph)
    requires GraphOf(stmts, was)
    ensures Linked(stmts + [stmt], was, Graph(was.parents + [[]], was.children + [[]]), |stmts|, 0)
  {
    hide IsEdge, Dependent;
  }

  function WithEdge(g: Graph, parent: nat, child: nat): Graph
    requires parent < |g.children| && child < |g.parents|
  {
    Graph(g.parents[child := g.parents[child] + [parent]], g.children[parent := g.children[parent] + [child]])
  }

  lemma LinkStep(stmts: seq<Stmt>, was: Graph, g: Graph, id: nat, i: nat)
    requires Linked(stmts, was, g, id, i) && i < id
    ensures var g1 := if Dependent(stmts[id], stmts[i]) then WithEdge(g, i, id) else g;
            var g2 := if Dependent(stmts[i], stmts[id]) then WithEdge(g1, id, i) else g1;
            Linked(stmts, was, g2, id, i + 1)
  {
    hide Dependent;
  }

  lemma LinkedIsGraph(stmts: seq<Stmt>, was: Graph, g: Graph, id: nat)
    requires Linked(stmts, was, g, id, id) && GraphOf(stmts[..id], was)
    ensures GraphOf(stmts, g)
  {
    hide Dependent;
    assert forall u :: 0 <= u < id ==> stmts[..id][u] == stmts[u];
    forall u: nat, v: nat {:trigger v in g.children[u]} {:trigger v in g.parents[u]} | u < |stmts|
      ensures v in g.children[u] <==> IsEdge(stmts, u, v)
      ensures v in g.parents[u] <==> IsEdge(stmts, v, u)
    {
      if u < id {
        assert v in was.children[u] <==> IsEdge(stmts[..id], u, v);
        assert v in was.parents[u] <==> IsEdge(stmts[..id], v, u);
      }
    }
    forall u: nat | u < id ensures Distinct(g.children[u]) && Distinct(g.parents[u]) {
      assert id !in was.children[u] && id !in was.parents[u] by {
        assert !IsEdge(stmts[..id], u, id) && !IsEdge(stmts[..id], id, u);
      }
    }
  }

  class Plan {
    var stmts: seq<Stmt>
    var parents: seq<seq<nat>>
    var children: seq<seq<nat>>
    var roots: seq<nat>
    const maxNodes: nat

    function Graph(): Graph
      reads this
    {
      Graphs.Graph(parents, children)
    }

    ghost predicate Valid()
      reads this
    {
      && GraphOf(stmts, Graph()) && |stmts| <= maxNodes
      && Distinct(roots) && forall u: nat :: u in roots <==> u < |stmts| && parents[u] == []
    }

    constructor (maxNodes: nat)
      ensures Valid() && stmts == [] && this.maxNodes == maxNodes
    {
      stmts, parents, children, roots := [], [], [], [];
      this.maxNodes := maxNodes;
    }

    /** The nodes without parents, in order. */
    method FindRoots()
      requires GraphOf(stmts, Graph()) && |stmts| <= maxNodes
      modifies this`roots
      ensures Valid()
    {
      hide IsEdge;
      roots := [];
      var i := 0;
      while i < |stmts|
        invariant 0 <= i <= |stmts| && |parents| == |stmts|
        invariant Distinct(roots) && forall u: nat :: u in roots <==> u < i && parents[u] == []
      {
        if |parents[i]| == 0 { roots := roots + [i]; }
        i := i + 1;
      }
    }

    method Insert(stmt: Stmt)
      requires Valid() && |stmts| < maxNodes
      modifies this
      ensures Valid() && stmts == old(stmts) + [stmt]
    {
      hide IsEdge, Dependent, Distinct, GraphOf;
      ghost var was, before := Graph(), stmts;
      var id := |stmts|;
      LinkStart(before, stmt, was);
      stmts := stmts + [stmt];
      parents, children := parents + [[]], children + [[]];
      var i := 0;
      while i < id
        invariant 0 <= i <= id == |before| && stmts == before + [stmt]
        invariant Linked(stmts, was, Graph(), id, i)
      {
        LinkStep(stmts, was, Graph(), id, i);
        var depends := IsDependent(stmts[id], stmts[i]);
        if depends {
          children := children[i := children[i] + [id]];
          parents := parents[id := parents[id] + [i]];
        }
        var needed := IsDependent(stmts[i], stmts[id]);
        if needed {
          children := children[id := children[id] + [i]];
          parents := parents[i := parents[i] + [id]];
        }
        i := i + 1;
      }
      assert stmts[..id] == before;
      LinkedIsGraph(stmts, was, Graph(), id);
      FindRoots();
    }
  }

  // ---- acyclicity

  /** Nodes that were left by the search: numbered before `time`, all children numbered lower. */
  ghost predicate Left(g: Graph, visited: seq<bool>, departure: seq<nat>, stack: seq<nat>, time: nat, u: nat)
    requires |visited| == |departure| == |g.children|
  {
    u < |visited| && visited[u] && u !in stack ==>
      && departure[u] < time
      && forall v :: v in g.children[u] && v < |visited| ==> visited[v] && v !in stack && departure[v] < departure[u]
  }

  ghost predicate SearchOk(g: Graph, visited: seq<bool>, departure: seq<nat>, stack: seq<nat>, time: nat) {
    && |visited| == |departure| == |g.children|
    && (forall u :: u in stack ==> u < |visited| && visited[u])
    && (Acyclic(g) ==> forall u {:trigger Left(g, visited, departure, stack, time, u)} :: Left(g, visited, departure, stack, time, u))
  }

  ghost function Unvisited(visited: seq<bool>): set<nat> {
    set u | 0 <= u < |visited| && !visited[u]
  }

  /** Acyclicity keeps a child out of the path that leads to its parent. */
  lemma ChildNotOnStack(g: Graph, path: seq<nat>, v: nat)
    requires Acyclic(g) && IsPath(g, path) && v < |g.children| && Edge(g, path[|path| - 1], v)
    ensures v !in path
  {
    if v in path {
      var i :| 0 <= i < |path| && path[i] == v;
      PathSnoc(g, path, v);
      Cycle(g, path + [v], i, |path|);
    }
  }

  lemma Leave(g: Graph, visited: seq<bool>, before: seq<nat>, stack: seq<nat>, v: nat, time: nat)
    requires SearchOk(g, visited, before, stack + [v], time) && v < |visited| && v !in stack
    requires Acyclic(g) ==> forall u :: u in g.children[v] && u < |visited| ==> visited[u] && u !in stack + [v]
    ensures SearchOk(g, visited, before[v := time], stack, time + 1)
  {
    hide Left, Acyclic;
    var after := before[v := time];
    forall u | u in stack ensures u < |visited| && visited[u] {
      assert u in stack + [v];
    }
    if Acyclic(g) {
      forall u: nat {:trigger Left(g, visited, after, stack, time + 1, u)} ensures Left(g, visited, after, stack, time + 1, u) {
        assert Left(g, visited, before, stack + [v], time, u);
        if u == v {
          LeftNow(g, visited, before, stack, v, time);
        } else {
          LeftEarlier(g, visited, before, stack, v, time, u);
        }
      }
    }
  }

  lemma LeftNow(g: Graph, visited: seq<bool>, before: seq<nat>, stack: seq<nat>, v: nat, time: nat)
    requires |visited| == |before| == |g.children| && v < |visited| && v !in stack
    requires forall u: nat :: u in g.children[v] && u < |visited| ==> visited[u] && u !in stack + [v]
    requires forall u: nat {:trigger Left(g, visited, before, stack + [v], time, u)} :: Left(g, visited, before, stack + [v], time, u)
    ensures Left(g, visited, before[v := time], stack, time + 1, v)
  {
    var after := before[v := time];
    forall c: nat | c in g.children[v] && c < |visited| ensures visited[c] && c !in stack && after[c] < after[v] {
      assert c !in stack + [v];
      assert v in stack + [v] && (c in stack ==> c in stack + [v]);
      assert c != v;
      assert Left(g, visited, before, stack + [v], time, c);
      assert after[c] == before[c] && after[v] == time;
    }
  }

  lemma LeftEarlier(g: Graph, visited: seq<bool>, before: seq<nat>, stack: seq<nat>, v: nat, time: nat, u: nat)
    requires |visited| == |before| == |g.children| && v < |visited| && v !in stack && u != v
    requires Left(g, visited, before, stack + [v], time, u)
    ensures Left(g, visited, before[v := time], stack, time + 1, u)
  {
    assert v in stack + [v];
    assert forall c: nat :: c in stack ==> c in stack + [v];
    assert u in stack + [v] ==> u in stack;
  }

  lemma Enter(g: Graph, visited: seq<bool>, departure: seq<nat>, stack: seq<nat>, v: nat, time: nat)
    requires SearchOk(g, visited, departure, stack, time) && v < |visited| && !visited[v]
    ensures SearchOk(g, visited[v := true], departure, stack + [v], time)
  {
    if Acyclic(g) {
      forall u: nat {:trigger Left(g, visited[v := true], departure, stack + [v], time, u)}
        ensures Left(g, visited[v := true], departure, stack + [v], time, u)
      {
        assert Left(g, visited, departure, stack, time, u);
      }
    }
  }

  method Dfs(g: Graph, visited: array<bool>, departure: array<nat>, time: nat, v: nat, ghost stack: seq<nat>)
    returns (time': nat)
    requires WellFormed(g) && v < |g.children| && SearchOk(g, visited[..], departure[..], stack, time)
    requires !visited[v] && IsPath(g, stack + [v])
    modifies visited, departure
    ensures SearchOk(g, visited[..], departure[..], stack, time') && time <= time'
    ensures visited[v] && forall u :: 0 <= u < visited.Length && old(visited[u]) ==> visited[u]
    decreases Unvisited(visited[..])
  {
    hide Left;
    Enter(g, visited[..], departure[..], stack, v, time);
    ghost var before := visited[..];
    visited[v] := true;
    assert visited[..] == before[v := true];
    time' := time;
    var i := 0;
    while i < |g.children[v]|
      invariant 0 <= i <= |g.children[v]| && time <= time'
      invariant SearchOk(g, visited[..], departure[..], stack + [v], time')
      invariant visited[v] && forall u :: 0 <= u < visited.Length && before[u] ==> visited[u]
      invariant forall j :: 0 <= j < i ==> visited[g.children[v][j]]
    {
      var child := g.children[v][i];
      if !visited[child] {
        PathSnoc(g, stack + [v], child);
        assert v in Unvisited(before) && v !in Unvisited(visited[..]);
        assert Unvisited(visited[..]) < Unvisited(before);
        time' := Dfs(g, visited, departure, time', child, stack + [v]);
      }
      i := i + 1;
    }
    if Acyclic(g) {
      forall u | u in g.children[v] && u < visited.Length ensures visited[u] && u !in stack + [v] {
        ChildNotOnStack(g, stack + [v], u);
      }
    }
    Leave(g, visited[..], departure[..], stack, v, time');
    ghost var numbers := departure[..];
    departure[v] := time';
    assert departure[..] == numbers[v := time'];
    time' := time' + 1;
  }

  /** In an acyclic graph a search from every root reaches every node. */
  lemma RootsReachAll(g: Graph, visited: seq<bool>, departure: seq<nat>, time: nat)
    requires WellFormed(g) && SearchOk(g, visited, departure, [], time) && Acyclic(g)
    requires forall u :: 0 <= u < |visited| && g.parents[u] == [] ==> visited[u]
    ensures forall u :: 0 <= u < |visited| ==> visited[u]
  {
    var inside: set<nat> := set u: nat | u < |visited| && !visited[u];
    forall v: nat {:trigger HasParentInside(g, inside, v)} | v in inside ensures HasParentInside(g, inside, v) {
      var u := g.parents[v][0];
      assert u in g.parents[v] && Edge(g, u, v);
      assert Left(g, visited, departure, [], time, u);
    }
    if inside != {} { NoEntryMeansCycle(g, inside); }
    forall u: nat | u < |visited| ensures visited[u] { assert u !in inside; }
  }

  /** Every edge goes from a later to an earlier departure. */
  ghost predicate Descends(g: Graph, departure: seq<nat>, u: nat) {
    u < |departure| == |g.children|
    && forall j :: 0 <= j < |g.children[u]| ==> g.children[u][j] < |departure| && departure[g.children[u][j]] < departure[u]
  }

  lemma DescendsMeansAcyclic(g: Graph, departure: seq<nat>)
    requires WellFormed(g) && |departure| == |g.children| && forall u: nat :: u < |departure| ==> Descends(g, departure, u)
    ensures Acyclic(g)
  {
    forall u, v | 0 <= u < |departure| && 0 <= v < |departure| && Edge(g, u, v) ensures departure[u] > departure[v] {
      assert Descends(g, departure, u);
    }
    RankMeansAcyclic(g, departure);
  }

  lemma SearchedMeansDescends(g: Graph, visited: seq<bool>, departure: seq<nat>, time: nat, u: nat)
    requires WellFormed(g) && SearchOk(g, visited, departure, [], time) && Acyclic(g) && u < |visited|
    requires forall u :: 0 <= u < |visited| && g.parents[u] == [] ==> visited[u]
    ensures Descends(g, departure, u)
  {
    RootsReachAll(g, visited, departure, time);
    assert Left(g, visited, departure, [], time, u);
    forall j | 0 <= j < |g.children[u]|
      ensures g.children[u][j] < |departure| && departure[g.children[u][j]] < departure[u]
    {
      assert g.children[u][j] in g.children[u];
    }
  }

  lemma ChildrenBelow(g: Graph)
    requires WellFormed(g)
    ensures |g.parents| == |g.children|
    ensures forall u, i :: 0 <= u < |g.children| && 0 <= i < |g.children[u]| ==> g.children[u][i] < |g.children|
  {
  }

  lemma SearchStart(g: Graph, visited: seq<bool>, departure: seq<nat>)
    requires |visited| == |departure| == |g.children| && forall u :: 0 <= u < |visited| ==> !visited[u]
    ensures SearchOk(g, visited, departure, [], 0)
  {
  }

  /** Depth-first numbering decides acyclicity exactly, nodes no root reaches included. */
  method IsAcyclic(g: Graph) returns (r: bool)
    requires WellFormed(g)
    ensures r <==> Acyclic(g)
  {
    hide Left, Acyclic, WellFormed;
    var n := |g.children|;
    ChildrenBelow(g);
    var visited := new bool[n](_ => false);
    var departure := new nat[n](_ => 0);
    var time := 0;
    SearchStart(g, visited[..], departure[..]);
    var i := 0;
    while i < n
      invariant 0 <= i <= n && SearchOk(g, visited[..], departure[..], [], time)
      invariant forall u :: 0 <= u < i && g.parents[u] == [] ==> visited[u]
    {
      if !visited[i] && |g.parents[i]| == 0 {
        assert IsPath(g, [] + [i]);
        time := Dfs(g, visited, departure, time, i, []);
      }
      i := i + 1;
    }
    i := 0;
    while i < n
      invariant 0 <= i <= n
      invariant forall u: nat :: u < i ==> Descends(g, departure[..], u)
    {
      var ii := 0;
      while ii < |g.children[i]|
        invariant 0 <= ii <= |g.children[i]|
        invariant forall j :: 0 <= j < ii ==> departure[g.children[i][j]] < departure[i]
      {
        if departure[i] <= departure[g.children[i][ii]] {
          if Acyclic(g) { SearchedMeansDescends(g, visited[..], departure[..], time, i); }
          return false;
        }
        ii := ii + 1;
      }
      i := i + 1;
    }
    DescendsMeansAcyclic(g, departure[..]);
    r := true;
  }

  // ---- the valid execution sequence

  /** Emits the current frontier and collects the next one. */
  method EmitFrontier(g: Graph, visited: array<bool>, order: array<nat>, next: nat, current: array<nat>, cfsize: nat,
                      nextFrontier: array<nat>, ghost marked: seq<nat>)
    returns (next': nat, nfsize: nat, ghost marked': seq<nat>)
    requires WellFormed(g) && |g.children| == visited.Length == order.Length == current.Length == nextFrontier.Length
    requires order != current && order != nextFrontier && current != nextFrontier
    requires next <= order.Length && Split(marked, order[..next], current[..], 0, cfsize, nextFrontier[..], 0)
    requires Marked(g, visited[..], marked)
    modifies visited, order, nextFrontier
    ensures next' == next + cfsize && Marked(g, visited[..], marked')
    ensures Split(marked', order[..next'], current[..], cfsize, cfsize, nextFrontier[..], nfsize)
  {
    hide Marked, WellFormed, Waiting, Split;
    SplitRoom(g, visited[..], marked, order[..next], current[..], 0, cfsize, nextFrontier[..], 0);
    next', nfsize, marked' := next, 0, marked;
    var ii := 0;
    while ii < cfsize
      invariant 0 <= ii <= cfsize && next' == next + ii && current[..] == old(current[..])
      invariant Split(marked', order[..next'], current[..], ii, cfsize, nextFrontier[..], nfsize)
      invariant Marked(g, visited[..], marked')
    {
      SplitRoom(g, visited[..], marked', order[..next'], current[..], ii, cfsize, nextFrontier[..], nfsize);
      var node := current[ii];
      ghost var emitted := order[..next'];
      EmitOne(marked', emitted, current[..], ii, cfsize, nextFrontier[..], nfsize);
      order[next'] := node;
      assert order[..next' + 1] == emitted + [node];
      next', ii := next' + 1, ii + 1;
      ghost var waiting, count, known := nextFrontier[..], nfsize, marked';
      nfsize, marked' := Expand(g, node, visited, nextFrontier, nfsize, marked');
      Append(known, marked', order[..next'], current[..], ii, cfsize, waiting, count, nextFrontier[..], nfsize);
    }
  }

  /** Emits `i` and, frontier by frontier, every node that this makes ready. */
  method EmitFrom(g: Graph, i: nat, visited: array<bool>, order: array<nat>, next: nat) returns (next': nat)
    requires WellFormed(g) && i < |g.children| == order.Length && next <= order.Length
    requires visited.Length == order.Length && !visited[i] && ParentsVisited(g, i, visited[..])
    requires Marked(g, visited[..], order[..next])
    modifies visited, order
    ensures next < next' <= order.Length && Marked(g, visited[..], order[..next'])
  {
    hide Marked, WellFormed, ParentsVisited, Split, Waiting;
    var n := order.Length;
    var nextFrontier, current := new nat[n], new nat[n];
    ghost var before := visited[..];
    Mark(g, before, order[..next], i);
    current[0] := i;
    visited[i] := true;
    ghost var marked := order[..next] + [i];
    assert visited[..] == before[i := true];
    FirstRound(order[..next], current[..], nextFrontier[..]);
    var cfsize, nfsize := 1, 0;
    next' := next;
    while cfsize > 0
      invariant next <= next' <= n && (cfsize > 0 || next' > next)
      invariant Marked(g, visited[..], marked)
      invariant Split(marked, order[..next'], current[..], 0, cfsize, nextFrontier[..], 0)
      invariant cfsize == 0 ==> marked == order[..next']
      decreases n - next'
    {
      SplitRoom(g, visited[..], marked, order[..next'], current[..], 0, cfsize, nextFrontier[..], 0);
      next', nfsize, marked := EmitFrontier(g, visited, order, next', current, cfsize, nextFrontier, marked);
      SplitRoom(g, visited[..], marked, order[..next'], current[..], cfsize, cfsize, nextFrontier[..], nfsize);
      NextRound(marked, order[..next'], current[..], cfsize, nextFrontier[..], nfsize);
      Copy(nextFrontier, current);
      cfsize := nfsize;
      nfsize := 0;
    }
  }

  /**
   * The order in which the plan runs: every emitted node comes once and after all its parents, all nodes
   * are emitted exactly when the graph is acyclic, and a node left out waits for another one left out.
   */
  method ValidExecSequence(g: Graph, order: array<nat>) returns (next: nat)
    requires WellFormed(g) && order.Length == |g.children|
    modifies order
    ensures next <= order.Length && TopologicalPrefix(g, order[..next])
    ensures next == order.Length <==> Acyclic(g)
    ensures forall u: nat :: u < order.Length && u !in order[..next] ==> exists p :: p in g.parents[u] && p !in order[..next]
  {
    hide Marked, WellFormed, ParentsVisited, Acyclic;
    var n := order.Length;
    var visited := new bool[n](_ => false);
    NoneMarked(g, visited[..]);
    var found := true;
    next := 0;
    assert order[..next] == [];
    while found
      invariant next <= n && Marked(g, visited[..], order[..next])
      invariant !found ==> Stuck(g, visited[..])
      decreases n - next, found
    {
      found := false;
      ghost var start := next;
      var i := 0;
      while i < n
        invariant 0 <= i <= n && start <= next <= n && (found <==> next > start)
        invariant Marked(g, visited[..], order[..next])
        invariant !found ==> forall u: nat :: u < i && !visited[u] ==> !ParentsVisited(g, u, visited[..])
      {
        if !visited[i] {
          SizesAgree(g, visited[..], order[..next]);
          var ready := AllVisitedParents(g, i, visited);
          if ready {
            found := true;
            next := EmitFrom(g, i, visited, order, next);
          }
        }
        i := i + 1;
      }
    }
    StuckExact(g, visited[..], order[..next]);
    StuckWaits(g, visited[..], order[..next]);
  }

  /** Builds the plan of a list of statements; a cyclic plan is a compilation error. */
  method InitPlan(stmts: seq<Stmt>) returns (plan: Plan, ok: bool)
    ensures fresh(plan) && plan.Valid() && plan.stmts == stmts && WellFormed(plan.Graph())
    ensures ok <==> Acyclic(plan.Graph())
  {
    plan := new Plan(|stmts|);
    var i := 0;
    while i < |stmts|
      invariant 0 <= i <= |stmts| && fresh(plan) && plan.Valid() && plan.stmts == stmts[..i] && plan.maxNodes == |stmts|
    {
      plan.Insert(stmts[i]);
      i := i + 1;
    }
    GraphIsWellFormed(stmts, plan.Graph());
    ok := IsAcyclic(plan.Graph());
  }
}
