/** Determinism of the frame: every order that respects the plan's edges leaves the same component state. */
module Frame {
  import opened Options
  import opened Graphs
  import opened ExecPlan
  import opened TaskGraphs

  /** The component state of the database: one table per component type. */
  type Tables<!C> = map<string, C>

  function Table<C>(db: Tables<C>, t: string): Option<C> {
    if t in db then Some(db[t]) else None
  }

  ghost predicate SameOn<C(!new)>(s: Stmt, db: Tables<C>, db': Tables<C>) {
    forall t {:trigger Table(db, t)} {:trigger Table(db', t)} :: Touches(s, t) ==> Table(db, t) == Table(db', t)
  }

  /** What `f` does to the table of type `t` in `db` is allowed to a task of `s`. */
  ghost predicate Framed<C(!new)>(s: Stmt, f: Tables<C> -> Tables<C>) {
    && (forall db, t {:trigger Table(f(db), t)} :: !Writes(s, t) ==> Table(f(db), t) == Table(db, t))
    && (forall db, db', t {:trigger Table(f(db), t), Table(f(db'), t)} ::
          SameOn(s, db, db') && Writes(s, t) ==> Table(f(db), t) == Table(f(db'), t))
  }

  ghost predicate AllFramed<C(!new)>(stmts: seq<Stmt>, funcs: seq<Tables<C> -> Tables<C>>) {
    |funcs| == |stmts| && forall u :: 0 <= u < |stmts| ==> Framed(stmts[u], funcs[u])
  }

  /** One of the two writes a type that the other touches. */
  ghost predicate Conflict(a: Stmt, b: Stmt) {
    exists t :: (Writes(a, t) && Touches(b, t)) || (Writes(b, t) && Touches(a, t))
  }

  /** The edges are exactly the conflicts: no conflicting pair is left unordered and no other pair is ordered. */
  lemma EdgeMeansConflict(a: Stmt, b: Stmt)
    ensures Dependent(a, b) || Dependent(b, a) <==> Conflict(a, b)
  {
    if Dependent(a, b) {
      var i :| 0 <= i < |a.matches| && Writes(b, a.matches[i].ctype);
      assert Touches(a, a.matches[i].ctype);
    }
    if Dependent(b, a) {
      var i :| 0 <= i < |b.matches| && Writes(a, b.matches[i].ctype);
      assert Touches(b, b.matches[i].ctype);
    }
    if Conflict(a, b) {
      var t :| (Writes(a, t) && Touches(b, t)) || (Writes(b, t) && Touches(a, t));
      if Writes(a, t) && Touches(b, t) { WaitsOneWay(b, a, t); } else { WaitsOneWay(a, b, t); }
    }
  }

  lemma WaitsOneWay(a: Stmt, b: Stmt, t: string)
    requires Writes(b, t) && Touches(a, t)
    ensures Dependent(a, b) || Dependent(b, a)
  {
    var i :| 0 <= i < |a.matches| && a.matches[i].ctype == t;
    var j :| 0 <= j < |b.matches| && b.matches[j].ctype == t;
    if !a.matches[i].readOnly {
      assert Writes(a, t);
      assert a.priority < b.priority ==> Dependent(b, a) by { assert Writes(a, b.matches[j].ctype); }
    }
  }

  lemma Commute<C(!new)>(a: Stmt, b: Stmt, f: Tables<C> -> Tables<C>, g: Tables<C> -> Tables<C>, db: Tables<C>)
    requires Framed(a, f) && Framed(b, g) && !Conflict(a, b)
    ensures f(g(db)) == g(f(db))
  {
    hide Writes, Touches;
    forall t: string ensures Writes(a, t) ==> Touches(a, t) { WritesTouches(a, t); }
    forall t: string ensures Writes(b, t) ==> Touches(b, t) { WritesTouches(b, t); }
    assert SameOn(a, g(db), db) && SameOn(b, f(db), db);
    forall t ensures Table(f(g(db)), t) == Table(g(f(db)), t) {
      if Writes(a, t) {
        assert Table(f(g(db)), t) == Table(f(db), t);
      } else if Writes(b, t) {
        assert Table(g(f(db)), t) == Table(g(db), t);
      }
    }
    SameTables(f(g(db)), g(f(db)));
  }

  lemma WritesTouches(s: Stmt, t: string)
    ensures Writes(s, t) ==> Touches(s, t)
  {
  }

  lemma SameTables<C>(db: Tables<C>, db': Tables<C>)
    requires forall t: string :: Table(db, t) == Table(db', t)
    ensures db == db'
  {
    forall t: string ensures t in db <==> t in db' { assert Table(db, t) == Table(db', t); }
    forall t: string | t in db && t in db' ensures db[t] == db'[t] { assert Table(db, t) == Table(db', t); }
  }

  // ---- reordering

  /** The tasks of `order` are distinct, and none comes before a task it waits for. */
  ghost predicate Respects(stmts: seq<Stmt>, order: seq<nat>) {
    && Distinct(order) && (forall i :: 0 <= i < |order| ==> order[i] < |stmts|)
    && forall i, j :: 0 <= i < j < |order| ==> !IsEdge(stmts, order[j], order[i])
  }

  ghost predicate Independent(stmts: seq<Stmt>, u: nat, v: nat) {
    u < |stmts| && v < |stmts| && !Conflict(stmts[u], stmts[v])
  }

  lemma {:induction false} MoveToEnd<C(!new)>(stmts: seq<Stmt>, funcs: seq<Tables<C> -> Tables<C>>, p: seq<nat>, x: nat,
                                              q: seq<nat>, db: Tables<C>)
    requires AllFramed(stmts, funcs) && x < |stmts|
    requires forall i :: 0 <= i < |q| ==> Independent(stmts, x, q[i])
    ensures RunAll(funcs, p + [x] + q, db) == RunAll(funcs, p + q + [x], db)
    decreases |q|
  {
    hide Framed, RunAll, Conflict;
    if q == [] {
      assert p + [x] + q == p + q + [x];
    } else {
      var front, y := q[..|q| - 1], q[|q| - 1];
      MoveToEnd(stmts, funcs, p, x, front, db);
      var done := RunAll(funcs, p + front, db);
      assert p + [x] + q == (p + [x] + front) + [y] && p + q + [x] == ((p + front) + [y]) + [x];
      RunOneMore(funcs, p + [x] + front, y, db);
      RunOneMore(funcs, p + front, x, db);
      RunOneMore(funcs, p + front, y, db);
      RunOneMore(funcs, p + front + [y], x, db);
      assert Independent(stmts, x, q[|q| - 1]);
      Commute(stmts[x], stmts[y], funcs[x], funcs[y], done);
    }
  }

  /** Nothing after `x` in one order and before it in the other can conflict with it. */
  lemma Unordered(stmts: seq<Stmt>, u: nat, v: nat)
    requires u < |stmts| && v < |stmts| && u != v && !IsEdge(stmts, u, v) && !IsEdge(stmts, v, u)
    ensures Independent(stmts, u, v)
  {
    EdgeMeansConflict(stmts[u], stmts[v]);
  }

  /** What follows the last task of `one` in `two` is independent of it. */
  lemma AfterIsIndependent(stmts: seq<Stmt>, one: seq<nat>, two: seq<nat>, p: seq<nat>, x: nat, q: seq<nat>)
    requires Respects(stmts, one) && Respects(stmts, two) && |one| == |two| && forall u :: u in one ==> u in two
    requires two == p + [x] + q && x == one[|one| - 1]
    ensures forall i :: 0 <= i < |q| ==> Independent(stmts, x, q[i])
  {
    hide IsEdge;
    var k := |p|;
    assert two[k] == x;
    forall i | 0 <= i < |q| ensures Independent(stmts, x, q[i]) {
      var y := two[k + 1 + i];
      SameMembers(one, two, y);
      var j := IndexOf(one, y);
      Unordered(stmts, x, y);
    }
  }

  /** Two orders of the same tasks that both respect the edges have the same effect. */
  lemma {:induction false} SameEffect<C(!new)>(stmts: seq<Stmt>, funcs: seq<Tables<C> -> Tables<C>>, one: seq<nat>,
                                               two: seq<nat>, db: Tables<C>)
    requires AllFramed(stmts, funcs) && Respects(stmts, one) && Respects(stmts, two) && |one| == |two|
    requires forall u :: u in one ==> u in two
    ensures RunAll(funcs, one, db) == RunAll(funcs, two, db)
    decreases |one|
  {
    hide RunAll, Framed, IsEdge;
    if one == [] {
      assert two == [];
    } else {
      var rest, x := one[..|one| - 1], one[|one| - 1];
      assert x in two;
      var k := IndexOf(two, x);
      var p, q := two[..k], two[k + 1..];
      assert two == p + [x] + q;
      AfterIsIndependent(stmts, one, two, p, x, q);
      MoveToEnd(stmts, funcs, p, x, q, db);
      RespectsWithout(stmts, two, k);
      RespectsPrefix(stmts, one);
      forall u | u in rest ensures u in p + q {
        var j :| 0 <= j < |rest| && rest[j] == u;
        assert one[j] == u && u in two && u != x;
      }
      SameEffect(stmts, funcs, rest, p + q, db);
      assert one == rest + [x];
      RunOneMore(funcs, rest, x, db);
      RunOneMore(funcs, p + q, x, db);
    }
  }

  lemma SameMembers(one: seq<nat>, two: seq<nat>, y: nat)
    requires Distinct(one) && |one| == |two| && (forall u :: u in one ==> u in two) && y in two
    ensures y in one
  {
    if y !in one {
      var k := IndexOf(two, y);
      var rest := two[..k] + two[k + 1..];
      forall u | u in one ensures u in rest {
        var j := IndexOf(two, u);
        assert if j < k then rest[j] == u else rest[j - 1] == u;
      }
      DistinctWithin(one, rest);
    }
  }

  lemma RespectsWithout(stmts: seq<Stmt>, order: seq<nat>, k: nat)
    requires Respects(stmts, order) && k < |order|
    ensures Respects(stmts, order[..k] + order[k + 1..])
  {
    var rest := order[..k] + order[k + 1..];
    assert forall i :: 0 <= i < |rest| ==> rest[i] == order[if i < k then i else i + 1];
  }

  lemma RespectsPrefix(stmts: seq<Stmt>, order: seq<nat>)
    requires Respects(stmts, order) && order != []
    ensures Respects(stmts, order[..|order| - 1])
  {
  }

  lemma TopologicalRespects(stmts: seq<Stmt>, g: Graph, order: seq<nat>)
    requires GraphOf(stmts, g) && TopologicalPrefix(g, order)
    ensures Respects(stmts, order)
  {
    hide Dependent;
    forall i: nat, j: nat | i < j < |order| ensures !IsEdge(stmts, order[j], order[i]) {
      assert order[j] !in order[..i];
      assert order[j] in g.parents[order[i]] <==> IsEdge(stmts, order[j], order[i]);
    }
  }

  /** Any two complete orders that respect the plan's edges leave the same component state. */
  lemma FrameIsDeterministic<C(!new)>(stmts: seq<Stmt>, g: Graph, funcs: seq<Tables<C> -> Tables<C>>, one: seq<nat>,
                                      two: seq<nat>, db: Tables<C>)
    requires GraphOf(stmts, g) && AllFramed(stmts, funcs)
    requires TopologicalPrefix(g, one) && |one| == |stmts| && TopologicalPrefix(g, two) && |two| == |stmts|
    ensures RunAll(funcs, one, db) == RunAll(funcs, two, db)
  {
    TopologicalRespects(stmts, g, one);
    TopologicalRespects(stmts, g, two);
    forall u | u in one ensures u in two { DistinctComplete(two, |stmts|, u); }
    SameEffect(stmts, funcs, one, two, db);
  }

  // ---- inserting the statements in another order

  /** The k-th statement of the second list is the `at[k]`-th of the first. */
  ghost predicate Reordered<T>(first: seq<T>, second: seq<T>, at: seq<nat>) {
    && |first| == |second| == |at| && Distinct(at) && (forall k :: 0 <= k < |at| ==> at[k] < |first|)
    && forall k :: 0 <= k < |at| ==> second[k] == first[at[k]]
  }

  function Renamed(at: seq<nat>, order: seq<nat>): (r: seq<nat>)
    requires forall k :: 0 <= k < |order| ==> order[k] < |at|
    ensures |r| == |order| && forall k :: 0 <= k < |r| ==> r[k] == at[order[k]]
  {
    seq(|order|, (k: nat) requires k < |order| && order[k] < |at| => at[order[k]])
  }

  lemma {:induction false} RunRenamed<D>(funcs: seq<D -> D>, funcs': seq<D -> D>, at: seq<nat>, order: seq<nat>, d: D)
    requires Reordered(funcs, funcs', at) && forall k :: 0 <= k < |order| ==> order[k] < |at|
    ensures RunAll(funcs', order, d) == RunAll(funcs, Renamed(at, order), d)
  {
    if order != [] {
      var rest := order[..|order| - 1];
      RunRenamed(funcs, funcs', at, rest, d);
      assert Renamed(at, order)[..|order| - 1] == Renamed(at, rest);
    }
  }

  lemma RespectsRenamed(stmts: seq<Stmt>, stmts': seq<Stmt>, at: seq<nat>, order: seq<nat>)
    requires Reordered(stmts, stmts', at) && Respects(stmts', order)
    ensures Respects(stmts, Renamed(at, order))
  {
    hide Dependent;
    var r := Renamed(at, order);
    forall i: nat, j: nat | i < j < |r| ensures r[i] != r[j] && !IsEdge(stmts, r[j], r[i]) {
      assert order[i] != order[j] && !IsEdge(stmts', order[j], order[i]);
    }
  }

  /** The effect of a frame does not depend on the order in which the statements were inserted either. */
  lemma InsertionOrderIrrelevant<C(!new)>(stmts: seq<Stmt>, g: Graph, funcs: seq<Tables<C> -> Tables<C>>, one: seq<nat>,
                                          stmts': seq<Stmt>, g': Graph, funcs': seq<Tables<C> -> Tables<C>>, two: seq<nat>,
                                          at: seq<nat>, db: Tables<C>)
    requires Reordered(stmts, stmts', at) && Reordered(funcs, funcs', at) && AllFramed(stmts, funcs)
    requires GraphOf(stmts, g) && TopologicalPrefix(g, one) && |one| == |stmts|
    requires GraphOf(stmts', g') && TopologicalPrefix(g', two) && |two| == |stmts|
    ensures RunAll(funcs, one, db) == RunAll(funcs', two, db)
  {
    hide IsEdge, RunAll, AllFramed;
    TopologicalRespects(stmts, g, one);
    TopologicalRespects(stmts', g', two);
    RunRenamed(funcs, funcs', at, two, db);
    RespectsRenamed(stmts, stmts', at, two);
    var two' := Renamed(at, two);
    forall u | u in one ensures u in two' { DistinctComplete(two', |stmts|, u); }
    SameEffect(stmts, funcs, one, two', db);
  }

  lemma CycleRenamed(stmts: seq<Stmt>, g: Graph, stmts': seq<Stmt>, g': Graph, at: seq<nat>)
    requires Reordered(stmts, stmts', at) && GraphOf(stmts, g) && GraphOf(stmts', g') && Acyclic(g)
    ensures Acyclic(g')
  {
    hide Dependent;
    forall p | IsPath(g', p) && |p| >= 2 ensures p[0] != p[|p| - 1] {
      var q := Renamed(at, p);
      forall i: nat, j: nat | i < |q| && j < |q| && j == i + 1 ensures Edge(g, q[i], q[j]) {
        assert Edge(g', p[i], p[j]);
        assert p[j] in g'.children[p[i]] && IsEdge(stmts', p[i], p[j]);
        assert IsEdge(stmts, q[i], q[j]);
      }
      assert IsPath(g, q);
    }
  }

  lemma InverseReordering<T>(first: seq<T>, second: seq<T>, at: seq<nat>) returns (back: seq<nat>)
    requires Reordered(first, second, at)
    ensures Reordered(second, first, back)
  {
    forall u: nat | u < |at| ensures u in at { DistinctComplete(at, |at|, u); }
    back := seq(|at|, (u: nat) requires u < |at| => IndexOf(at, u));
    assert forall u :: 0 <= u < |at| ==> at[back[u]] == u;
  }

  /** Whether a plan is accepted does not depend on the insertion order. */
  lemma AcceptanceIsOrderFree(stmts: seq<Stmt>, g: Graph, stmts': seq<Stmt>, g': Graph, at: seq<nat>)
    requires Reordered(stmts, stmts', at) && GraphOf(stmts, g) && GraphOf(stmts', g')
    ensures Acyclic(g) <==> Acyclic(g')
  {
    hide GraphOf, Acyclic;
    var back := InverseReordering(stmts, stmts', at);
    if Acyclic(g) { CycleRenamed(stmts, g, stmts', g', at); }
    if Acyclic(g') { CycleRenamed(stmts', g', stmts, g, back); }
  }

  // ---- a whole frame

  lemma ListsFit(stmts: seq<Stmt>, g: Graph, u: nat)
    requires GraphOf(stmts, g) && u < |stmts|
    ensures |g.parents[u]| < |stmts| && |g.children[u]| < |stmts|
  {
    hide Dependent;
    forall k: nat | k < |g.parents[u]| ensures g.parents[u][k] < |stmts| { assert g.parents[u][k] in g.parents[u]; }
    forall k: nat | k < |g.children[u]| ensures g.children[u][k] < |stmts| { assert g.children[u][k] in g.children[u]; }
    assert u !in g.parents[u] && u !in g.children[u] by { assert !IsEdge(stmts, u, u); }
    DistinctBound(g.parents[u] + [u], |stmts|);
    DistinctBound(g.children[u] + [u], |stmts|);
  }

  lemma SameEdges(g: Graph, g': Graph)
    requires g.parents == g'.parents && |g.children| == |g'.children| && forall u, v :: Edge(g, u, v) <==> Edge(g', u, v)
    ensures Acyclic(g) <==> Acyclic(g')
    ensures forall order :: TopologicalPrefix(g, order) <==> TopologicalPrefix(g', order)
  {
    forall p ensures IsPath(g, p) <==> IsPath(g', p) { }
  }

  /**
   * Plans, loads and runs one frame. It is refused exactly when the plan has a cycle; otherwise the database ends in
   * the state that every order respecting the edges leads to.
   */
  method RunFrame<C(!new)>(stmts: seq<Stmt>, tasks: seq<Tables<C> -> Tables<C>>, room: nat, db: Database<Tables<C>>)
    returns (ok: bool, ghost g: Graph)
    requires AllFramed(stmts, tasks) && |stmts| <= room
    modifies db
    ensures GraphOf(stmts, g) && (ok <==> Acyclic(g))
    ensures !ok ==> db.contents == old(db.contents)
    ensures ok ==> forall order :: TopologicalPrefix(g, order) && |order| == |stmts| ==>
                     db.contents == RunAll(tasks, order, old(db.contents))
  {
    hide Framed, GraphOf, Acyclic, TopologicalPrefix, RunAll, WellFormed, Edge, Distinct;
    var plan: Plan;
    plan, ok := InitPlan(stmts);
    g := plan.Graph();
    GraphSizes(stmts, g);
    if ok {
      forall u: nat | u < |stmts| ensures |g.parents[u]| < room && |g.children[u]| < room { ListsFit(stmts, g, u); }
      var graph := new TaskGraph(|stmts|, room, tasks);
      graph.Load(plan.Graph(), tasks);
      SameEdges(g, graph.Shape());
      ghost var first := db.contents;
      ghost var ran := graph.Run(db);
      forall order | TopologicalPrefix(g, order) && |order| == |stmts| ensures db.contents == RunAll(tasks, order, first) {
        FrameIsDeterministic(stmts, g, tasks, ran, order, first);
      }
    }
  }

  lemma GraphSizes(stmts: seq<Stmt>, g: Graph)
    requires GraphOf(stmts, g)
    ensures |g.parents| == |g.children| == |stmts|
    ensures forall u :: 0 <= u < |stmts| ==> Distinct(g.parents[u]) && Distinct(g.children[u])
  {
  }
}
