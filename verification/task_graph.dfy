/** The runtime task graph: built from the plan's parent lists, run frontier by frontier. */
module TaskGraphs {
  import opened Graphs
  import opened Frontiers

  /** What a task function mutates. */
  class Database<D> {
    var contents: D

    constructor (contents: D)
      ensures this.contents == contents
    {
      this.contents := contents;
    }
  }

  /** The contents after the tasks of `order` ran one after the other. */
  function RunAll<D>(funcs: seq<D -> D>, order: seq<nat>, contents: D): D {
    if order == [] then contents
    else
      var before := RunAll(funcs, order[..|order| - 1], contents);
      var last := order[|order| - 1];
      if last < |funcs| then funcs[last](before) else before
  }

  lemma RunOneMore<D>(funcs: seq<D -> D>, order: seq<nat>, task: nat, contents: D)
    requires task < |funcs|
    ensures RunAll(funcs, order + [task], contents) == funcs[task](RunAll(funcs, order, contents))
  {
    assert (order + [task])[..|order|] == order;
  }

  class TaskGraph<D> {
    var funcs: seq<D -> D>
    var parents: seq<seq<nat>>
    var children: seq<seq<nat>>
    /** Room for parents and for children of one task. */
    const room: nat

    function Shape(): Graph
      reads this
    {
      Graphs.Graph(parents, children)
    }

    ghost predicate Valid()
      reads this
    {
      && |funcs| == |parents| == |children|
      && (forall u :: 0 <= u < |parents| ==> |parents[u]| <= room && |children[u]| <= room)
    }

    constructor (numTasks: nat, room: nat, unset: seq<D -> D>)
      requires |unset| == numTasks
      ensures Valid() && |funcs| == numTasks && this.room == room
      ensures forall u :: 0 <= u < numTasks ==> parents[u] == [] && children[u] == []
    {
      funcs := unset;
      parents, children := seq(numTasks, _ => []), seq(numTasks, _ => []);
      this.room := room;
    }

    method InsertTask(id: nat, func: D -> D)
      requires Valid() && id < |funcs|
      modifies this
      ensures Valid() && funcs == old(funcs)[id := func]
      ensures parents == old(parents)[id := []] && children == old(children)[id := []]
    {
      funcs := funcs[id := func];
      parents, children := parents[id := []], children[id := []];
    }

    /**
     * The first two bounds are the source's assertions, of which the second one reads the parent's parent count; the
     * last one is the room that the child list needs.
     */
    method SetParent(task: nat, parent: nat)
      requires Valid() && task < |funcs| && parent < |funcs|
      requires |parents[task]| < room && |parents[parent]| < room && |children[parent]| < room
      modifies this`parents, this`children
      ensures Valid()
      ensures parents == old(parents)[task := old(parents)[task] + [parent]]
      ensures children == old(children)[parent := old(children)[parent] + [task]]
    {
      parents := parents[task := parents[task] + [parent]];
      children := children[parent := children[parent] + [task]];
    }

    /** Builds the graph as the generated start-up code does: all tasks first, then parent by parent. */
    method Load(plan: Graph, tasks: seq<D -> D>)
      requires Valid() && WellFormed(plan) && |plan.parents| == |tasks| == |funcs|
      requires forall u :: 0 <= u < |tasks| ==> Distinct(plan.parents[u]) && Distinct(plan.children[u])
      requires forall u :: 0 <= u < |tasks| ==> |plan.parents[u]| <= room && |plan.children[u]| <= room
      requires forall u :: 0 <= u < |tasks| && plan.children[u] != [] ==> |plan.parents[u]| < room
      modifies this
      ensures Valid() && funcs == tasks && parents == plan.parents
      ensures WellFormed(Shape()) && forall u, v :: Edge(Shape(), u, v) <==> Edge(plan, u, v)
    {
      hide WellFormed, Distinct;
      var n := |tasks|;
      var i := 0;
      while i < n
        invariant 0 <= i <= n == |funcs| && Valid()
        invariant forall u :: 0 <= u < i ==> funcs[u] == tasks[u] && parents[u] == [] && children[u] == []
      {
        InsertTask(i, tasks[i]);
        i := i + 1;
      }
      assert funcs == tasks;
      LoadStart(plan, Shape());
      i := 0;
      while i < n
        invariant 0 <= i <= n == |funcs| && Valid() && funcs == tasks
        invariant Loaded(plan, Shape(), i, 0)
      {
        var j := 0;
        while j < |plan.parents[i]|
          invariant 0 <= j <= |plan.parents[i]| && Valid() && funcs == tasks
          invariant Loaded(plan, Shape(), i, j)
        {
          LoadRoom(plan, Shape(), i, j);
          LoadParent(plan, Shape(), i, j);
          SetParent(i, plan.parents[i][j]);
          j := j + 1;
        }
        LoadNext(plan, Shape(), i);
        i := i + 1;
      }
      LoadedAll(plan, Shape());
    }

    /** Runs the tasks of one frontier and collects the next one. */
    method RunFrontier(db: Database<D>, visited: array<bool>, current: array<nat>, cfsize: nat, nextFrontier: array<nat>,
                       ghost emitted: seq<nat>, ghost marked: seq<nat>, ghost first: D)
      returns (nfsize: nat, ghost emitted': seq<nat>, ghost marked': seq<nat>)
      requires WellFormed(Shape()) && |funcs| == |children| == visited.Length == current.Length == nextFrontier.Length
      requires current != nextFrontier && Split(marked, emitted, current[..], 0, cfsize, nextFrontier[..], 0)
      requires Marked(Shape(), visited[..], marked) && db.contents == RunAll(funcs, emitted, first)
      modifies db, visited, nextFrontier
      ensures |emitted'| == |emitted| + cfsize && Marked(Shape(), visited[..], marked')
      ensures Split(marked', emitted', current[..], cfsize, cfsize, nextFrontier[..], nfsize)
      ensures db.contents == RunAll(funcs, emitted', first)
    {
      hide Marked, WellFormed, Waiting, Split, RunAll;
      SplitRoom(Shape(), visited[..], marked, emitted, current[..], 0, cfsize, nextFrontier[..], 0);
      nfsize, emitted', marked' := 0, emitted, marked;
      var ii := 0;
      while ii < cfsize
        invariant 0 <= ii <= cfsize && |emitted'| == |emitted| + ii && current[..] == old(current[..])
        invariant Split(marked', emitted', current[..], ii, cfsize, nextFrontier[..], nfsize)
        invariant Marked(Shape(), visited[..], marked')
        invariant db.contents == RunAll(funcs, emitted', first)
      {
        SplitRoom(Shape(), visited[..], marked', emitted', current[..], ii, cfsize, nextFrontier[..], nfsize);
        var node := current[ii];
        EmitOne(marked', emitted', current[..], ii, cfsize, nextFrontier[..], nfsize);
        RunOneMore(funcs, emitted', node, first);
        db.contents := funcs[node](db.contents);
        ii, emitted' := ii + 1, emitted' + [node];
        ghost var waiting, count, known := nextFrontier[..], nfsize, marked';
        nfsize, marked' := Expand(Shape(), node, visited, nextFrontier, nfsize, marked');
        Append(known, marked', emitted', current[..], ii, cfsize, waiting, count, nextFrontier[..], nfsize);
      }
    }

    /** Runs task `i` and, frontier by frontier, every task that this makes ready. */
    method RunFrom(db: Database<D>, i: nat, visited: array<bool>, ghost emitted: seq<nat>, ghost first: D)
      returns (ghost emitted': seq<nat>)
      requires WellFormed(Shape()) && i < |funcs| == |children| == visited.Length
      requires !visited[i] && ParentsVisited(Shape(), i, visited[..]) && Marked(Shape(), visited[..], emitted)
      requires db.contents == RunAll(funcs, emitted, first)
      modifies db, visited
      ensures |emitted| < |emitted'| <= |funcs| && Marked(Shape(), visited[..], emitted')
      ensures db.contents == RunAll(funcs, emitted', first)
    {
      hide Marked, WellFormed, ParentsVisited, Split, Waiting, RunAll;
      var n := |funcs|;
      var nfrontier, cfrontier := new nat[n](_ => 0), new nat[n](_ => 0);
      ghost var before := visited[..];
      Mark(Shape(), before, emitted, i);
      cfrontier[0] := i;
      visited[i] := true;
      ghost var marked := emitted + [i];
      assert visited[..] == before[i := true];
      FirstRound(emitted, cfrontier[..], nfrontier[..]);
      var ccfrontier, cnfrontier := 1, 0;
      emitted' := emitted;
      RoomFor(Shape(), visited[..], marked);
      while ccfrontier > 0
        invariant |emitted| <= |emitted'| <= n && (ccfrontier > 0 || |emitted'| > |emitted|)
        invariant Marked(Shape(), visited[..], marked)
        invariant Split(marked, emitted', cfrontier[..], 0, ccfrontier, nfrontier[..], 0)
        invariant ccfrontier == 0 ==> marked == emitted'
        invariant db.contents == RunAll(funcs, emitted', first)
        decreases n - |emitted'|
      {
        SplitRoom(Shape(), visited[..], marked, emitted', cfrontier[..], 0, ccfrontier, nfrontier[..], 0);
        cnfrontier, emitted', marked := RunFrontier(db, visited, cfrontier, ccfrontier, nfrontier, emitted', marked, first);
        SplitRoom(Shape(), visited[..], marked, emitted', cfrontier[..], ccfrontier, ccfrontier, nfrontier[..], cnfrontier);
        NextRound(marked, emitted', cfrontier[..], ccfrontier, nfrontier[..], cnfrontier);
        Copy(nfrontier, cfrontier);
        ccfrontier := cnfrontier;
        cnfrontier := 0;
      }
    }

    /**
     * Runs the graph on `db`. The tasks run are those of `order`: each once and after all its parents, and all of
     * them exactly when the graph is acyclic.
     */
    method Run(db: Database<D>) returns (ghost order: seq<nat>)
      requires WellFormed(Shape()) && |funcs| == |children|
      modifies db
      ensures db.contents == RunAll(funcs, order, old(db.contents)) && TopologicalPrefix(Shape(), order)
      ensures |order| == |funcs| <==> Acyclic(Shape())
    {
      hide Marked, WellFormed, ParentsVisited, Acyclic;
      var n := |funcs|;
      var visited := new bool[n](_ => false);
      NoneMarked(Shape(), visited[..]);
      var found := true;
      order := [];
      ghost var first := db.contents;
      while found
        invariant |order| <= n && Marked(Shape(), visited[..], order) && db.contents == RunAll(funcs, order, first)
        invariant !found ==> Stuck(Shape(), visited[..])
        decreases n - |order|, found
      {
        found := false;
        ghost var start := |order|;
        var i := 0;
        while i < n
          invariant 0 <= i <= n && start <= |order| <= n && (found <==> |order| > start)
          invariant Marked(Shape(), visited[..], order) && db.contents == RunAll(funcs, order, first)
          invariant !found ==> forall u: nat :: u < i && !visited[u] ==> !ParentsVisited(Shape(), u, visited[..])
        {
          if !visited[i] {
            SizesAgree(Shape(), visited[..], order);
            var ready := AllVisitedParents(Shape(), i, visited);
            if ready {
              found := true;
              order := RunFrom(db, i, visited, order, first);
            }
          }
          i := i + 1;
        }
      }
      StuckExact(Shape(), visited[..], order);
      StuckWaits(Shape(), visited[..], order);
    }
  }

  // ---- loading

  /** All parents of the tasks before `i` are set, and the first `j` of task `i`. */
  ghost predicate IsSet(plan: Graph, i: nat, j: nat, u: nat, v: nat) {
    && v < |plan.parents|
    && ((v < i && u in plan.parents[v]) || (v == i && j <= |plan.parents[v]| && u in plan.parents[v][..j]))
  }

  ghost predicate Loaded(plan: Graph, g: Graph, i: nat, j: nat) {
    && |g.parents| == |g.children| == |plan.parents| && i <= |plan.parents|
    && (forall v: nat :: v < i ==> g.parents[v] == plan.parents[v])
    && (i < |plan.parents| ==> j <= |plan.parents[i]| && g.parents[i] == plan.parents[i][..j])
    && (forall v: nat :: i < v < |plan.parents| ==> g.parents[v] == [])
    && (forall u: nat, v: nat {:trigger v in g.children[u]} :: u < |g.children| ==>
          (v in g.children[u] <==> IsSet(plan, i, j, u, v)))
    && (forall u: nat :: u < |g.children| ==> Distinct(g.children[u]))
  }

  lemma LoadStart(plan: Graph, g: Graph)
    requires |g.parents| == |g.children| == |plan.parents|
    requires forall u :: 0 <= u < |g.parents| ==> g.parents[u] == [] && g.children[u] == []
    ensures Loaded(plan, g, 0, 0)
  {
  }

  lemma LoadNext(plan: Graph, g: Graph, i: nat)
    requires i < |plan.parents| && Loaded(plan, g, i, |plan.parents[i]|)
    ensures Loaded(plan, g, i + 1, 0)
  {
    hide Distinct;
    assert plan.parents[i][..|plan.parents[i]|] == plan.parents[i];
    forall u: nat, v: nat {:trigger IsSet(plan, i + 1, 0, u, v)}
      ensures IsSet(plan, i, |plan.parents[i]|, u, v) <==> IsSet(plan, i + 1, 0, u, v)
    {
    }
  }

  /** The parent list of task `i` has room, and so has the child list of its next parent. */
  lemma LoadRoom(plan: Graph, g: Graph, i: nat, j: nat)
    requires WellFormed(plan) && i < |plan.parents| && j < |plan.parents[i]| && Loaded(plan, g, i, j)
    requires Distinct(plan.parents[i])
    ensures plan.parents[i][j] < |plan.parents| && |g.parents[i]| < |plan.parents[i]|
    ensures |g.parents[plan.parents[i][j]]| <= |plan.parents[plan.parents[i][j]]| && plan.children[plan.parents[i][j]] != []
    ensures |g.children[plan.parents[i][j]]| < |plan.children[plan.parents[i][j]]|
    ensures i !in g.children[plan.parents[i][j]]
  {
    var p := plan.parents[i][j];
    assert i !in g.children[p] by { assert !IsSet(plan, i, j, p, i); }
    var longer := g.children[p] + [i];
    forall v | v in longer ensures v in plan.children[p] {
      assert v in g.children[p] ==> IsSet(plan, i, j, p, v);
      assert p in plan.parents[v];
    }
    DistinctWithin(longer, plan.children[p]);
  }

  lemma LoadParent(plan: Graph, g: Graph, i: nat, j: nat)
    requires i < |plan.parents| && j < |plan.parents[i]| && Loaded(plan, g, i, j)
    requires plan.parents[i][j] < |plan.parents| && i !in g.children[plan.parents[i][j]]
    ensures var p := plan.parents[i][j];
            Loaded(plan, Graphs.Graph(g.parents[i := g.parents[i] + [p]], g.children[p := g.children[p] + [i]]), i, j + 1)
  {
    var p := plan.parents[i][j];
    assert plan.parents[i][..j + 1] == plan.parents[i][..j] + [p];
  }

  lemma LoadedAll(plan: Graph, g: Graph)
    requires WellFormed(plan) && Loaded(plan, g, |plan.parents|, 0)
    ensures g.parents == plan.parents && WellFormed(g) && forall u, v :: Edge(g, u, v) <==> Edge(plan, u, v)
  {
    hide Distinct;
    forall u: nat, v: nat {:trigger Edge(g, u, v)} {:trigger v in g.children[u]}
      ensures Edge(g, u, v) <==> Edge(plan, u, v)
    {
      if u < |g.children| {
        assert v in g.children[u] <==> IsSet(plan, |plan.parents|, 0, u, v);
        if v in plan.children[u] {
          var k :| 0 <= k < |plan.children[u]| && plan.children[u][k] == v;
          assert u in plan.parents[v];
        }
      }
    }
    assert g.parents == plan.parents;
    forall u: nat, k: nat | u < |g.children| && k < |g.children[u]| ensures g.children[u][k] < |g.children| {
      assert Edge(g, u, g.children[u][k]);
    }
    forall u: nat, v: nat | u < |g.children| && v < |g.children| ensures v in g.children[u] <==> u in g.parents[v] {
      assert Edge(g, u, v) <==> Edge(plan, u, v);
    }
  }
}
