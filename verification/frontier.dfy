/** Steps shared by the two-frontier loops of the compiler and of the runtime. */
module Frontiers {
  import opened Graphs

  predicate ParentsVisited(g: Graph, v: nat, visited: seq<bool>) {
    v < |g.parents| && forall i :: 0 <= i < |g.parents[v]| ==> g.parents[v][i] < |visited| && visited[g.parents[v][i]]
  }

  /** `marked` lists the visited nodes in the order in which they were visited. */
  ghost predicate Marked(g: Graph, visited: seq<bool>, marked: seq<nat>) {
    && |visited| == |g.children| && TopologicalPrefix(g, marked) && |marked| <= |visited|
    && forall u: nat :: u in marked <==> u < |visited| && visited[u]
  }

  lemma NoneMarked(g: Graph, visited: seq<bool>)
    requires |visited| == |g.children| && forall u :: 0 <= u < |visited| ==> !visited[u]
    ensures Marked(g, visited, [])
  {
  }

  lemma Mark(g: Graph, visited: seq<bool>, marked: seq<nat>, v: nat)
    requires Marked(g, visited, marked) && v < |visited| && !visited[v] && ParentsVisited(g, v, visited)
    ensures Marked(g, visited[v := true], marked + [v])
  {
    var longer := marked + [v];
    assert forall j :: 0 <= j <= |marked| ==> longer[..j] == marked[..j];
    DistinctBound(longer, |g.children|);
  }

  /** No node can be visited next. */
  ghost predicate Stuck(g: Graph, visited: seq<bool>) {
    forall u: nat :: u < |visited| && !visited[u] ==> !ParentsVisited(g, u, visited)
  }

  /** A stuck loop has visited everything exactly when the graph has no cycle. */
  lemma StuckExact(g: Graph, visited: seq<bool>, marked: seq<nat>)
    requires WellFormed(g) && Marked(g, visited, marked) && Stuck(g, visited)
    ensures |marked| == |g.children| <==> Acyclic(g)
    ensures |marked| == |g.children| <==> forall u :: 0 <= u < |visited| ==> visited[u]
  {
    if |marked| == |g.children| {
      TopologicalMeansAcyclic(g, marked);
      forall u: nat | u < |visited| ensures visited[u] { DistinctComplete(marked, |visited|, u); }
    } else {
      var inside: set<nat> := set u: nat | u < |visited| && !visited[u];
      if inside == {} {
        forall u: nat | u < |visited| ensures u in marked { assert u !in inside; }
        AllMarkedCount(marked, |visited|);
      } else {
        forall v: nat {:trigger HasParentInside(g, inside, v)} | v in inside ensures HasParentInside(g, inside, v) {
          assert !ParentsVisited(g, v, visited);
          var i :| 0 <= i < |g.parents[v]| && !visited[g.parents[v][i]];
          var u := g.parents[v][i];
          assert u in g.parents[v] && Edge(g, u, v);
        }
        NoEntryMeansCycle(g, inside);
        var w :| w in inside;
      }
    }
  }

  lemma AllMarkedCount(marked: seq<nat>, n: nat)
    requires Distinct(marked) && forall u: nat :: u < n ==> u in marked
    requires forall k :: 0 <= k < |marked| ==> marked[k] < n
    ensures |marked| == n
  {
    DistinctBound(marked, n);
    if |marked| < n {
      var where := seq(n, (u: nat) requires u < n => IndexOf(marked, u));
      var i, j := Repeats(where, Below(|marked|));
    }
  }

  method AllVisitedParents(g: Graph, v: nat, visited: array<bool>) returns (r: bool)
    requires WellFormed(g) && v < |g.parents| && visited.Length == |g.children|
    ensures r <==> ParentsVisited(g, v, visited[..])
  {
    var i := 0;
    while i < |g.parents[v]|
      invariant 0 <= i <= |g.parents[v]|
      invariant forall k :: 0 <= k < i ==> visited[g.parents[v][k]]
    {
      if !visited[g.parents[v][i]] {
        assert !visited[..][g.parents[v][i]];
        return false;
      }
      i := i + 1;
    }
    r := true;
  }

  /** The last `count` nodes marked so far wait in the frontier. */
  ghost predicate Waiting(frontier: seq<nat>, count: nat, marked: seq<nat>) {
    count <= |marked| && count <= |frontier| && frontier[..count] == marked[|marked| - count..]
  }

  /** Puts the children of `node` whose parents are all visited on the next frontier. */
  method Expand(g: Graph, node: nat, visited: array<bool>, next: array<nat>, count: nat, ghost marked: seq<nat>)
    returns (count': nat, ghost marked': seq<nat>)
    requires WellFormed(g) && node < |g.children| && next.Length == |g.children|
    requires Marked(g, visited[..], marked) && Waiting(next[..], count, marked)
    modifies visited, next
    ensures Marked(g, visited[..], marked') && Waiting(next[..], count', marked')
    ensures marked <= marked' && |marked'| - |marked| == count' - count >= 0
  {
    hide Marked, WellFormed;
    SizesAgree(g, visited[..], marked);
    count', marked' := count, marked;
    var j := 0;
    while j < |g.children[node]|
      invariant 0 <= j <= |g.children[node]|
      invariant Marked(g, visited[..], marked') && Waiting(next[..], count', marked')
      invariant marked <= marked' && |marked'| - |marked| == count' - count >= 0
    {
      var child := g.children[node][j];
      if !visited[child] {
        var ready := AllVisitedParents(g, child, visited);
        if ready {
          ghost var before := visited[..];
          Mark(g, before, marked', child);
          RoomFor(g, before[child := true], marked' + [child]);
          next[count'] := child;
          visited[child] := true;
          assert visited[..] == before[child := true];
          count', marked' := count' + 1, marked' + [child];
        }
      }
      j := j + 1;
    }
  }

  lemma SizesAgree(g: Graph, visited: seq<bool>, marked: seq<nat>)
    requires WellFormed(g) && Marked(g, visited, marked)
    ensures |visited| == |g.children| == |g.parents|
    ensures forall u, i :: 0 <= u < |g.children| && 0 <= i < |g.children[u]| ==> g.children[u][i] < |visited|
  {
  }

  lemma RoomFor(g: Graph, visited: seq<bool>, marked: seq<nat>)
    requires Marked(g, visited, marked)
    ensures |marked| <= |g.children| && forall u :: u in marked ==> u < |g.children|
  {
  }

  /** The nodes marked so far: emitted, left on the current frontier, put on the next one. */
  ghost predicate Split(marked: seq<nat>, emitted: seq<nat>, current: seq<nat>, ii: nat, cfsize: nat,
                        nextFrontier: seq<nat>, nfsize: nat) {
    && ii <= cfsize <= |current| && nfsize <= |nextFrontier|
    && marked == emitted + current[ii..cfsize] + nextFrontier[..nfsize]
  }

  lemma FirstRound(emitted: seq<nat>, current: seq<nat>, nextFrontier: seq<nat>)
    requires |current| > 0
    ensures Split(emitted + [current[0]], emitted, current, 0, 1, nextFrontier, 0)
  {
  }

  lemma EmitOne(marked: seq<nat>, emitted: seq<nat>, current: seq<nat>, ii: nat, cfsize: nat, nextFrontier: seq<nat>,
                nfsize: nat)
    requires Split(marked, emitted, current, ii, cfsize, nextFrontier, nfsize) && ii < cfsize
    ensures Split(marked, emitted + [current[ii]], current, ii + 1, cfsize, nextFrontier, nfsize)
    ensures current[ii] in marked
  {
    assert current[ii..cfsize] == [current[ii]] + current[ii + 1..cfsize];
    assert marked[|emitted|] == current[ii];
  }

  lemma Append(marked: seq<nat>, marked': seq<nat>, emitted: seq<nat>, current: seq<nat>, ii: nat, cfsize: nat,
               before: seq<nat>, nfsize: nat, after: seq<nat>, nfsize': nat)
    requires Split(marked, emitted, current, ii, cfsize, before, nfsize)
    requires Waiting(after, nfsize', marked') && marked <= marked' && |marked'| - |marked| == nfsize' - nfsize >= 0
    ensures Split(marked', emitted, current, ii, cfsize, after, nfsize')
  {
    var front := emitted + current[ii..cfsize];
    assert |marked'| - nfsize' == |front|;
    assert marked[..|front|] == front && marked'[..|front|] == front;
    assert marked' == marked'[..|front|] + marked'[|front|..];
  }

  lemma SplitRoom(g: Graph, visited: seq<bool>, marked: seq<nat>, emitted: seq<nat>, current: seq<nat>, ii: nat,
                  cfsize: nat, nextFrontier: seq<nat>, nfsize: nat)
    requires Split(marked, emitted, current, ii, cfsize, nextFrontier, nfsize) && Marked(g, visited, marked)
    ensures |emitted| + (cfsize - ii) + nfsize == |marked| <= |g.children|
    ensures forall u :: u in marked ==> u < |g.children|
    ensures Waiting(nextFrontier, nfsize, marked)
  {
    hide TopologicalPrefix;
    RoomFor(g, visited, marked);
    assert marked[|marked| - nfsize..] == nextFrontier[..nfsize];
  }

  lemma NextRound(marked: seq<nat>, emitted: seq<nat>, current: seq<nat>, cfsize: nat, nextFrontier: seq<nat>, nfsize: nat)
    requires Split(marked, emitted, current, cfsize, cfsize, nextFrontier, nfsize)
    ensures Split(marked, emitted, nextFrontier, 0, nfsize, nextFrontier, 0)
    ensures nfsize == 0 ==> marked == emitted
  {
  }

  method Copy(source: array<nat>, target: array<nat>)
    requires source.Length == target.Length && source != target
    modifies target
    ensures target[..] == old(source[..])
  {
    var k := 0;
    while k < source.Length
      invariant 0 <= k <= source.Length && target[..k] == source[..k] && source[..] == old(source[..])
    {
      target[k] := source[k];
      k := k + 1;
    }
    assert target[..] == target[..k] && source[..] == source[..k];
  }

  lemma StuckWaits(g: Graph, visited: seq<bool>, marked: seq<nat>)
    requires WellFormed(g) && Marked(g, visited, marked) && Stuck(g, visited)
    ensures TopologicalPrefix(g, marked)
    ensures forall u: nat :: u < |g.children| && u !in marked ==> exists p :: p in g.parents[u] && p !in marked
  {
    hide TopologicalPrefix;
    forall u: nat | u < |g.children| && u !in marked ensures exists p :: p in g.parents[u] && p !in marked {
      assert !visited[u] && !ParentsVisited(g, u, visited);
      var k :| 0 <= k < |g.parents[u]| && !visited[g.parents[u][k]];
      assert g.parents[u][k] in g.parents[u];
    }
  }
}
