/** Dependency graphs with mirrored parent and child lists, their paths and cycles. */
module Graphs {

  datatype Graph = Graph(parents: seq<seq<nat>>, children: seq<seq<nat>>)

  predicate Edge(g: Graph, u: nat, v: nat) {
    u < |g.children| && v in g.children[u]
  }

  ghost predicate WellFormed(g: Graph) {
    && |g.parents| == |g.children|
    && (forall u, i :: 0 <= u < |g.children| && 0 <= i < |g.children[u]| ==> g.children[u][i] < |g.children|)
    && (forall u, i :: 0 <= u < |g.parents| && 0 <= i < |g.parents[u]| ==> g.parents[u][i] < |g.parents|)
    && (forall u, v :: 0 <= u < |g.children| && 0 <= v < |g.children| ==> (v in g.children[u] <==> u in g.parents[v]))
  }

  ghost predicate IsPath(g: Graph, p: seq<nat>) {
    && p != [] && (forall i :: 0 <= i < |p| ==> p[i] < |g.children|)
    && (forall i, j :: 0 <= i < |p| && 0 <= j < |p| && j == i + 1 ==> Edge(g, p[i], p[j]))
  }

  ghost predicate Acyclic(g: Graph) {
    forall p :: IsPath(g, p) && |p| >= 2 ==> p[0] != p[|p| - 1]
  }

  predicate Distinct(s: seq<nat>) {
    forall i, j :: 0 <= i < j < |s| ==> s[i] != s[j]
  }

  /** Pigeonhole: more places than values means a repeated value. */
  lemma {:induction false} Repeats(s: seq<nat>, values: set<nat>) returns (i: nat, j: nat)
    requires |s| > |values| && forall k :: 0 <= k < |s| ==> s[k] in values
    ensures i < j < |s| && s[i] == s[j]
    decreases |s|
  {
    var last := s[|s| - 1];
    if k :| 0 <= k < |s| - 1 && s[k] == last {
      i, j := k, |s| - 1;
    } else {
      i, j := Repeats(s[..|s| - 1], values - {last});
    }
  }

  lemma DistinctBound(s: seq<nat>, n: nat)
    requires Distinct(s) && forall k :: 0 <= k < |s| ==> s[k] < n
    ensures |s| <= n
  {
    var values := Below(n);
    if |s| > n { var i, j := Repeats(s, values); }
  }

  ghost function Below(n: nat): (r: set<nat>)
    ensures |r| == n && forall k: nat :: k in r <==> k < n
  {
    if n == 0 then {} else Below(n - 1) + {n - 1}
  }

  /** A distinct list of `n` numbers below `n` holds all of them. */
  lemma DistinctComplete(s: seq<nat>, n: nat, v: nat)
    requires Distinct(s) && |s| == n && v < n && forall k :: 0 <= k < |s| ==> s[k] < n
    ensures v in s
  {
    if v !in s {
      var values := Below(n) - {v};
      var i, j := Repeats(s, values);
    }
  }

  /** A distinct list of members of another list is no longer than it. */
  lemma {:induction false} DistinctWithin(s: seq<nat>, t: seq<nat>)
    requires Distinct(s) && forall v :: v in s ==> v in t
    ensures |s| <= |t|
  {
    var values := set v | v in t;
    MembersBound(t, values);
    if |s| > |t| { var i, j := Repeats(s, values); }
  }

  lemma {:induction false} MembersBound(t: seq<nat>, values: set<nat>)
    requires forall v :: v in values ==> v in t
    ensures |values| <= |t|
  {
    if t != [] {
      var last := t[|t| - 1];
      MembersBound(t[..|t| - 1], values - {last});
    } else {
      assert values == {};
    }
  }

  // ---- sets without an entry point hold a cycle

  ghost predicate HasParentInside(g: Graph, inside: set<nat>, v: nat) {
    exists u :: u in inside && Edge(g, u, v)
  }

  ghost predicate NoEntry(g: Graph, inside: set<nat>) {
    forall u {:trigger HasParentInside(g, inside, u)} :: u in inside ==> HasParentInside(g, inside, u)
  }

  lemma PathSnoc(g: Graph, p: seq<nat>, v: nat)
    requires IsPath(g, p) && v < |g.children| && Edge(g, p[|p| - 1], v)
    ensures IsPath(g, p + [v])
  {
  }

  lemma {:induction false} PathBack(g: Graph, inside: set<nat>, v: nat, k: nat) returns (p: seq<nat>)
    requires v in inside && (forall u :: u in inside ==> u < |g.children|) && NoEntry(g, inside)
    ensures IsPath(g, p) && |p| == k + 1 && p[k] == v && forall i :: 0 <= i < |p| ==> p[i] in inside
    decreases k
  {
    if k == 0 {
      p := [v];
    } else {
      assert HasParentInside(g, inside, v);
      var u :| u in inside && Edge(g, u, v);
      var q := PathBack(g, inside, u, k - 1);
      PathSnoc(g, q, v);
      p := q + [v];
    }
  }

  lemma Cycle(g: Graph, p: seq<nat>, i: nat, j: nat)
    requires IsPath(g, p) && i < j < |p| && p[i] == p[j]
    ensures !Acyclic(g)
  {
    var q := p[i..j + 1];
    assert forall k :: 0 <= k < |q| ==> q[k] == p[i + k];
    assert IsPath(g, q) && q[0] == q[|q| - 1];
  }

  lemma NoEntryMeansCycle(g: Graph, inside: set<nat>)
    requires inside != {} && (forall u :: u in inside ==> u < |g.children|) && NoEntry(g, inside)
    ensures !Acyclic(g)
  {
    var v :| v in inside;
    var p := PathBack(g, inside, v, |inside|);
    var i, j := Repeats(p, inside);
    Cycle(g, p, i, j);
  }

  /** A strictly decreasing rank along edges rules cycles out. */
  lemma {:induction false} RankDecreases(g: Graph, rank: seq<nat>, p: seq<nat>)
    requires |rank| == |g.children| && IsPath(g, p)
    requires forall u, v :: 0 <= u < |rank| && 0 <= v < |rank| && Edge(g, u, v) ==> rank[u] > rank[v]
    ensures rank[p[|p| - 1]] <= rank[p[0]] && (|p| >= 2 ==> rank[p[|p| - 1]] < rank[p[0]])
    decreases |p|
  {
    if |p| >= 2 {
      var q := p[..|p| - 1];
      assert IsPath(g, q);
      RankDecreases(g, rank, q);
      assert Edge(g, p[|p| - 2], p[|p| - 1]);
    }
  }

  lemma RankMeansAcyclic(g: Graph, rank: seq<nat>)
    requires |rank| == |g.children|
    requires forall u, v :: 0 <= u < |rank| && 0 <= v < |rank| && Edge(g, u, v) ==> rank[u] > rank[v]
    ensures Acyclic(g)
  {
    forall p | IsPath(g, p) && |p| >= 2 ensures p[0] != p[|p| - 1] { RankDecreases(g, rank, p); }
  }

  // ---- topological orders

  /** Every node of the order comes after all of its parents. */
  ghost predicate ParentsFirst(g: Graph, order: seq<nat>) {
    forall j, u :: 0 <= j < |order| && order[j] < |g.parents| && u in g.parents[order[j]] ==> u in order[..j]
  }

  ghost predicate TopologicalPrefix(g: Graph, order: seq<nat>) {
    && Distinct(order) && (forall j :: 0 <= j < |order| ==> order[j] < |g.children|)
    && ParentsFirst(g, order)
  }

  function IndexOf(order: seq<nat>, v: nat): (i: nat)
    requires v in order
    ensures i < |order| && order[i] == v
  {
    if order[0] == v then 0 else 1 + IndexOf(order[1..], v)
  }

  lemma TopologicalMeansAcyclic(g: Graph, order: seq<nat>)
    requires WellFormed(g) && TopologicalPrefix(g, order) && |order| == |g.children|
    ensures Acyclic(g)
  {
    var n := |order|;
    forall v: nat | v < n ensures v in order { DistinctComplete(order, n, v); }
    var rank := seq(n, (v: nat) requires v < n => n - IndexOf(order, v));
    forall u, v | 0 <= u < n && 0 <= v < n && Edge(g, u, v) ensures rank[u] > rank[v] {
      var j := IndexOf(order, v);
      assert u in g.parents[order[j]];
      var i :| 0 <= i < j && order[..j][i] == u;
      var k := IndexOf(order, u);
      assert order[i] == order[k] && i == k;
    }
    RankMeansAcyclic(g, rank);
  }
}
