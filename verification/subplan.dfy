/** Building the operators of a statement: an array of nodes linked by child and parent indices. */
module Subplans {
  import opened Options
  import opened QueryExec
  import opened QueryPlan

  datatype Kind =
    | ScanNode(ctype: string)
    | RefScanNode(ref: string)
    | JoinNode(left: nat, right: nat)
    | LeftFilterJoinNode(left: nat, right: nat)
    | TagFilterNode(child: nat, tag: string, has: bool, onColumn: bool)
    | PredicateFilterNode(child: nat, filter: nat)
    | GatherNode(child: nat, table: nat)
    | ForeachNode(child: nat)

  datatype Node = Node(kind: Kind, parent: Option<nat>, columns: seq<ColumnKind>)

  function Children(k: Kind): seq<nat> {
    match k
    case ScanNode(_) => []
    case RefScanNode(_) => []
    case JoinNode(l, r) => [l, r]
    case LeftFilterJoinNode(l, r) => [l, r]
    case TagFilterNode(c, _, _, _) => [c]
    case PredicateFilterNode(c, _) => [c]
    case GatherNode(c, t) => [c, t]
    case ForeachNode(c) => [c]
  }

  /** Children come before their parent in the array, and point back to it. */
  ghost predicate Linked(nodes: seq<Node>) {
    forall id: nat, c: nat {:trigger c in Children(nodes[id].kind)} ::
      id < |nodes| && c in Children(nodes[id].kind) ==> c < id && nodes[c].parent == Some(id)
  }

  /** The node exists and nothing consumes it yet. */
  predicate Open(nodes: seq<Node>, id: nat) {
    id < |nodes| && nodes[id].parent == None && !nodes[id].kind.ForeachNode?
  }

  /** The operator tree below a node. */
  function TreeOf(nodes: seq<Node>, id: nat): Op {
    if id >= |nodes| then Scan("")
    else
      match nodes[id].kind
      case ScanNode(t) => Scan(t)
      case RefScanNode(r) => RefScan(r)
      case JoinNode(l, r) => if l < id && r < id then Join(TreeOf(nodes, l), TreeOf(nodes, r)) else Scan("")
      case LeftFilterJoinNode(l, r) => if l < id && r < id then LeftFilterJoin(TreeOf(nodes, l), TreeOf(nodes, r)) else Scan("")
      case TagFilterNode(c, tag, has, on) => if c < id then TagFilter(TreeOf(nodes, c), tag, has, on) else Scan("")
      case PredicateFilterNode(c, f) => if c < id then PredicateFilter(TreeOf(nodes, c), f) else Scan("")
      case GatherNode(c, t) => if c < id && t < id then Gather(TreeOf(nodes, c), TreeOf(nodes, t)) else Scan("")
      case ForeachNode(c) => if c < id then TreeOf(nodes, c) else Scan("")
  }

  ghost predicate ColumnsRight(nodes: seq<Node>) {
    forall id: nat :: id < |nodes| ==> nodes[id].columns == ColumnsOf(TreeOf(nodes, id))
  }

  /** `nodes'` has the nodes of `nodes` and more; of the old ones only parents may differ. */
  ghost predicate Extends(nodes: seq<Node>, nodes': seq<Node>) {
    |nodes| <= |nodes'| && forall i :: 0 <= i < |nodes| ==> nodes'[i].kind == nodes[i].kind && nodes'[i].columns == nodes[i].columns
  }

  lemma {:induction false} TreeStays(nodes: seq<Node>, nodes': seq<Node>, id: nat)
    requires Extends(nodes, nodes') && Linked(nodes) && id < |nodes|
    ensures TreeOf(nodes', id) == TreeOf(nodes, id)
    decreases id
  {
    var cs := Children(nodes[id].kind);
    if |cs| >= 1 {
      assert cs[0] in Children(nodes[id].kind);
      TreeStays(nodes, nodes', cs[0]);
    }
    if |cs| >= 2 {
      assert cs[1] in Children(nodes[id].kind);
      TreeStays(nodes, nodes', cs[1]);
    }
  }

  ghost predicate Built(nodes: seq<Node>) {
    Linked(nodes) && ColumnsRight(nodes)
  }

  function SetParent(nodes: seq<Node>, children: seq<nat>, id: nat): (r: seq<Node>)
    ensures |r| == |nodes|
    ensures forall i :: 0 <= i < |r| ==> r[i] == if i in children then nodes[i].(parent := Some(id)) else nodes[i]
  {
    seq(|nodes|, (i: nat) requires i < |nodes| => if i in children then nodes[i].(parent := Some(id)) else nodes[i])
  }

  /** A new node on top of open ones. */
  function WithNode(nodes: seq<Node>, kind: Kind, columns: seq<ColumnKind>): seq<Node> {
    SetParent(nodes, Children(kind), |nodes|) + [Node(kind, None, columns)]
  }

  lemma WithNodeLinked(nodes: seq<Node>, kind: Kind, columns: seq<ColumnKind>)
    requires Linked(nodes) && forall c :: c in Children(kind) ==> Open(nodes, c)
    ensures Linked(WithNode(nodes, kind, columns)) && Extends(nodes, WithNode(nodes, kind, columns))
    ensures forall i :: 0 <= i < |nodes| && i !in Children(kind) ==> WithNode(nodes, kind, columns)[i] == nodes[i]
  {
    hide Children;
    var after := WithNode(nodes, kind, columns);
    forall id: nat, c: nat {:trigger c in Children(after[id].kind)} | id < |after| && c in Children(after[id].kind)
      ensures c < id && after[c].parent == Some(id)
    {
      if id < |nodes| { assert c in Children(nodes[id].kind); }
    }
  }

  lemma WithNodeBuilt(nodes: seq<Node>, kind: Kind, columns: seq<ColumnKind>)
    requires Built(nodes) && forall c :: c in Children(kind) ==> Open(nodes, c)
    requires columns == ColumnsOf(TreeOf(WithNode(nodes, kind, columns), |nodes|))
    ensures Built(WithNode(nodes, kind, columns))
  {
    hide ColumnsOf, Children, TreeOf, Linked, WithNode;
    WithNodeLinked(nodes, kind, columns);
    var after := WithNode(nodes, kind, columns);
    WithNodeLast(nodes, kind, columns);
    forall id: nat | id < |after| ensures after[id].columns == ColumnsOf(TreeOf(after, id)) {
      if id < |nodes| {
        TreeStays(nodes, after, id);
        assert nodes[id].columns == ColumnsOf(TreeOf(nodes, id));
      }
    }
  }

  lemma WithNodeLast(nodes: seq<Node>, kind: Kind, columns: seq<ColumnKind>)
    ensures |WithNode(nodes, kind, columns)| == |nodes| + 1
    ensures WithNode(nodes, kind, columns)[|nodes|] == Node(kind, None, columns)
  {
  }

  lemma TreesStay(nodes: seq<Node>, kind: Kind, columns: seq<ColumnKind>, c: nat)
    requires Linked(nodes) && c < |nodes| && forall x :: x in Children(kind) ==> Open(nodes, x)
    ensures TreeOf(WithNode(nodes, kind, columns), c) == TreeOf(nodes, c)
  {
    hide TreeOf;
    WithNodeLinked(nodes, kind, columns);
    TreeStays(nodes, WithNode(nodes, kind, columns), c);
  }

  class Subplan {
    var nodes: seq<Node>
    var root: nat
    var requiresSync: bool

    ghost predicate Valid()
      reads this
    {
      Built(nodes)
    }

    /** The operator tree below a node. */
    ghost function Tree(id: nat): Op
      reads this
    {
      TreeOf(nodes, id)
    }

    constructor ()
      ensures Valid() && nodes == [] && !requiresSync
    {
      nodes, root, requiresSync := [], 0, false;
    }

    /** Appends a node, makes it the parent of its children and gives it its columns. */
    method Create(kind: Kind, columns: seq<ColumnKind>) returns (id: nat)
      requires Valid() && forall c :: c in Children(kind) ==> Open(nodes, c)
      requires columns == ColumnsOf(TreeOf(WithNode(nodes, kind, columns), |nodes|))
      modifies this`nodes
      ensures Valid() && id == |old(nodes)| && nodes == WithNode(old(nodes), kind, columns)
      ensures Extends(old(nodes), nodes) && nodes[id] == Node(kind, None, columns)
    {
      hide ColumnsOf, TreeOf, Linked;
      WithNodeLinked(nodes, kind, columns);
      WithNodeBuilt(nodes, kind, columns);
      id := |nodes|;
      nodes := WithNode(nodes, kind, columns);
    }

    method CreateScan(ctype: string) returns (id: nat)
      requires Valid()
      modifies this`nodes
      ensures Valid() && Extends(old(nodes), nodes) && Open(nodes, id) && Tree(id) == Scan(ctype) && id == |old(nodes)|
      ensures forall i :: 0 <= i < |old(nodes)| ==> nodes[i] == old(nodes)[i]
    {
      id := Create(ScanNode(ctype), [ComponentColumn(ctype)]);
    }

    method CreateRefScan(ref: string) returns (id: nat)
      requires Valid()
      modifies this`nodes
      ensures Valid() && Extends(old(nodes), nodes) && Open(nodes, id) && Tree(id) == RefScan(ref) && id == |old(nodes)|
      ensures forall i :: 0 <= i < |old(nodes)| ==> nodes[i] == old(nodes)[i]
    {
      id := Create(RefScanNode(ref), [IdColumn(ref)]);
    }

    method CreateJoin(left: nat, right: nat) returns (id: nat)
      requires Valid() && Open(nodes, left) && Open(nodes, right) && left != right
      modifies this`nodes
      ensures Valid() && Extends(old(nodes), nodes) && Open(nodes, id) && id == |old(nodes)|
      ensures Tree(id) == Join(old(Tree(left)), old(Tree(right)))
      ensures forall i :: 0 <= i < |old(nodes)| && i != left && i != right ==> nodes[i] == old(nodes)[i]
    {
      var kind, columns := JoinNode(left, right), nodes[left].columns + nodes[right].columns;
      TreesStay(nodes, kind, columns, left);
      TreesStay(nodes, kind, columns, right);
      id := Create(kind, columns);
    }

    method CreateLeftFilterJoin(left: nat, right: nat) returns (id: nat)
      requires Valid() && Open(nodes, left) && Open(nodes, right) && left != right
      modifies this`nodes
      ensures Valid() && Extends(old(nodes), nodes) && Open(nodes, id) && id == |old(nodes)|
      ensures Tree(id) == LeftFilterJoin(old(Tree(left)), old(Tree(right)))
      ensures forall i :: 0 <= i < |old(nodes)| && i != left && i != right ==> nodes[i] == old(nodes)[i]
    {
      var kind, columns := LeftFilterJoinNode(left, right), nodes[left].columns;
      TreesStay(nodes, kind, columns, left);
      TreesStay(nodes, kind, columns, right);
      id := Create(kind, columns);
    }

    method CreateTagFilter(child: nat, tag: string, has: bool, onColumn: bool) returns (id: nat)
      requires Valid() && Open(nodes, child)
      modifies this`nodes
      ensures Valid() && Extends(old(nodes), nodes) && Open(nodes, id) && id == |old(nodes)|
      ensures Tree(id) == TagFilter(old(Tree(child)), tag, has, onColumn)
      ensures forall i :: 0 <= i < |old(nodes)| && i != child ==> nodes[i] == old(nodes)[i]
    {
      var kind, columns := TagFilterNode(child, tag, has, onColumn), nodes[child].columns;
      TreesStay(nodes, kind, columns, child);
      id := Create(kind, columns);
    }

    method CreatePredicateFilter(child: nat, filter: nat) returns (id: nat)
      requires Valid() && Open(nodes, child)
      modifies this`nodes
      ensures Valid() && Extends(old(nodes), nodes) && Open(nodes, id) && id == |old(nodes)|
      ensures Tree(id) == PredicateFilter(old(Tree(child)), filter)
      ensures forall i :: 0 <= i < |old(nodes)| && i != child ==> nodes[i] == old(nodes)[i]
    {
      var kind, columns := PredicateFilterNode(child, filter), nodes[child].columns;
      TreesStay(nodes, kind, columns, child);
      id := Create(kind, columns);
    }

    method CreateGather(child: nat, table: nat) returns (id: nat)
      requires Valid() && Open(nodes, child) && Open(nodes, table) && child != table
      modifies this`nodes
      ensures Valid() && Extends(old(nodes), nodes) && Open(nodes, id) && id == |old(nodes)|
      ensures Tree(id) == Gather(old(Tree(child)), old(Tree(table)))
      ensures forall i :: 0 <= i < |old(nodes)| && i != child && i != table ==> nodes[i] == old(nodes)[i]
    {
      var kind, columns := GatherNode(child, table), AsReferences(nodes[child].columns);
      TreesStay(nodes, kind, columns, child);
      TreesStay(nodes, kind, columns, table);
      id := Create(kind, columns);
    }

    method CreateForeach(child: nat) returns (id: nat)
      requires Valid() && Open(nodes, child)
      modifies this`nodes
      ensures Valid() && Extends(old(nodes), nodes) && id == |old(nodes)|
      ensures id < |nodes| && nodes[id].kind == ForeachNode(child) && nodes[id].parent == None && nodes[child].parent == Some(id)
      ensures Tree(id) == old(Tree(child))
    {
      var kind, columns := ForeachNode(child), nodes[child].columns;
      TreesStay(nodes, kind, columns, child);
      id := Create(kind, columns);
    }

    /** A tree that nothing new consumes stays what it was. */
    twostate lemma Unused(id: nat)
      requires old(Valid()) && Extends(old(nodes), nodes) && id < |old(nodes)|
      ensures Tree(id) == old(Tree(id))
    {
      TreeStays(old(nodes), nodes, id);
    }

    method ApplyTags(tags: seq<string>, has: bool, onColumn: bool, root: nat) returns (localRoot: nat)
      requires Valid() && Open(nodes, root)
      modifies this`nodes
      ensures Valid() && Extends(old(nodes), nodes) && Open(nodes, localRoot)
      ensures Tree(localRoot) == TagChain(old(Tree(root)), tags, has, onColumn)
      ensures localRoot == root || localRoot >= |old(nodes)|
      ensures forall i :: 0 <= i < |old(nodes)| && i != root ==> nodes[i] == old(nodes)[i]
    {
      localRoot := root;
      var i := 0;
      while i < |tags|
        invariant 0 <= i <= |tags| && Valid() && Extends(old(nodes), nodes) && Open(nodes, localRoot)
        invariant Tree(localRoot) == TagChain(old(Tree(root)), tags[..i], has, onColumn)
        invariant localRoot == root || localRoot >= |old(nodes)|
        invariant forall j :: 0 <= j < |old(nodes)| && j != root ==> nodes[j] == old(nodes)[j]
      {
        localRoot := CreateTagFilter(localRoot, tags[i], has, onColumn);
        assert tags[..i + 1][..i] == tags[..i];
        i := i + 1;
      }
      assert tags[..i] == tags;
    }

    method ApplyFilters(m: EntityMatch, onColumn: bool, root: nat) returns (localRoot: nat)
      requires Valid() && Open(nodes, root)
      modifies this`nodes
      ensures Valid() && Extends(old(nodes), nodes) && Open(nodes, localRoot)
      ensures Tree(localRoot) == TagFilters(old(Tree(root)), m, onColumn)
      ensures localRoot == root || localRoot >= |old(nodes)|
      ensures forall i :: 0 <= i < |old(nodes)| && i != root ==> nodes[i] == old(nodes)[i]
    {
      hide ColumnsOf, TreeOf, Linked;
      localRoot := ApplyTags(m.hasNotTags, false, onColumn, root);
      localRoot := ApplyTags(m.hasTags, true, onColumn, localRoot);
    }

    method ApplyPredicateFilters(filters: seq<nat>, root: nat) returns (localRoot: nat)
      requires Valid() && Open(nodes, root)
      modifies this`nodes
      ensures Valid() && Extends(old(nodes), nodes) && Open(nodes, localRoot)
      ensures Tree(localRoot) == PredicateChain(old(Tree(root)), filters)
      ensures localRoot == root || localRoot >= |old(nodes)|
      ensures forall i :: 0 <= i < |old(nodes)| && i != root ==> nodes[i] == old(nodes)[i]
    {
      localRoot := root;
      var i := 0;
      while i < |filters|
        invariant 0 <= i <= |filters| && Valid() && Extends(old(nodes), nodes) && Open(nodes, localRoot)
        invariant Tree(localRoot) == PredicateChain(old(Tree(root)), filters[..i])
        invariant localRoot == root || localRoot >= |old(nodes)|
        invariant forall j :: 0 <= j < |old(nodes)| && j != root ==> nodes[j] == old(nodes)[j]
      {
        localRoot := CreatePredicateFilter(localRoot, filters[i]);
        assert filters[..i + 1][..i] == filters[..i];
        i := i + 1;
      }
      assert filters[..i] == filters;
    }

    /** The scans of a match and their joins; none for a match without components. */
    method CreateScans(comps: seq<string>) returns (localRoot: Option<nat>)
      requires Valid()
      modifies this`nodes
      ensures Valid() && Extends(old(nodes), nodes)
      ensures comps == [] ==> localRoot == None
      ensures comps != [] ==> localRoot.Some? && Open(nodes, localRoot.value) && localRoot.value >= |old(nodes)|
                              && Tree(localRoot.value) == Joined(comps)
      ensures forall i :: 0 <= i < |old(nodes)| ==> nodes[i] == old(nodes)[i]
    {
      hide ColumnsOf, TreeOf, Linked;
      localRoot := None;
      var j := 0;
      while j < |comps|
        invariant 0 <= j <= |comps| && Valid() && Extends(old(nodes), nodes)
        invariant j == 0 ==> localRoot == None
        invariant j > 0 ==> localRoot.Some? && Open(nodes, localRoot.value) && localRoot.value >= |old(nodes)|
                            && Tree(localRoot.value) == Joined(comps[..j])
        invariant forall i :: 0 <= i < |old(nodes)| ==> nodes[i] == old(nodes)[i]
      {
        label before:
        var right := CreateScan(comps[j]);
        if localRoot.None? {
          localRoot := Some(right);
        } else {
          Unused@before(localRoot.value);
          var id := CreateJoin(localRoot.value, right);
          localRoot := Some(id);
          assert comps[..j + 1][..j] == comps[..j];
        }
        j := j + 1;
      }
      assert comps[..j] == comps;
    }

    /** The operator of one match. */
    method CreateLocal(m: EntityMatch, last: EntityMatch) returns (localRoot: Option<nat>)
      requires Valid() && (m.comps != [] || m.expand.Some?) && (m.expand.Some? ==> !Cascades(m, last))
      modifies this
      ensures Valid() && Extends(old(nodes), nodes)
      ensures localRoot.Some? && Open(nodes, localRoot.value) && localRoot.value >= |old(nodes)|
      ensures LocalRoot(m) == Some(Tree(localRoot.value))
      ensures requiresSync <==> old(requiresSync) || (m.comps != [] && m.expand.Some?)
      ensures forall i :: 0 <= i < |old(nodes)| ==> nodes[i] == old(nodes)[i]
    {
      hide ColumnsOf, TreeOf, Linked, TagFilters, Cascades;
      localRoot := CreateScans(m.comps);
      if localRoot.Some? {
        var filtered := ApplyFilters(m, false, localRoot.value);
        localRoot := Some(filtered);
      }
      if m.expand.Some? {
        label before:
        var table := CreateRefScan(m.expand.value);
        if localRoot.Some? {
          Unused@before(localRoot.value);
          var cascading := ChoosesCascading(m, last);
          assert !cascading;
          var gather := CreateGather(localRoot.value, table);
          localRoot := Some(gather);
          requiresSync := true;
        } else {
          var filtered := ApplyFilters(m, true, table);
          localRoot := Some(filtered);
        }
      }
    }

    /** Builds the plan of a statement, its last match first, and puts the system's operator on top. */
    method Init(ms: seq<EntityMatch>)
      requires Valid() && nodes == [] && StmtOk(ms)
      modifies this
      ensures Valid() && root < |nodes| && nodes[root].kind.ForeachNode? && nodes[root].parent == None
      ensures PlanOf(ms) == Some(Tree(root)) && nodes[root].columns == ColumnsOf(Tree(root))
      ensures requiresSync <==> Gathers(Tree(root))
      ensures requiresSync <==> exists i :: 0 <= i < |ms| && ms[i].comps != [] && ms[i].expand.Some?
    {
      hide ColumnsOf, TreeOf, Linked, LocalRoot, PredicateChain, Cascades, Gathers;
      requiresSync := false;
      var top: Option<nat> := None;
      var i := |ms|;
      while i > 0
        invariant 0 <= i <= |ms| && Valid()
        invariant i == |ms| <==> top.None?
        invariant top.Some? ==> Open(nodes, top.value) && PlanOf(ms[i..]) == Some(Tree(top.value))
        invariant requiresSync <==> top.Some? && Gathers(Tree(top.value))
        invariant requiresSync <==> exists j :: i <= j < |ms| && ms[j].comps != [] && ms[j].expand.Some?
      {
        i := i - 1;
        var m := ms[i];
        assert ms[i..][1..] == ms[i + 1..] && ms[i..][0] == m;
        label before:
        var local := CreateLocal(m, ms[|ms| - 1]);
        LocalGathers(m);
        if top.None? {
          top := local;
        } else {
          Unused@before(top.value);
          if m.comps == [] {
            JoinedGathers(Tree(top.value), Tree(local.value));
            var id := CreateLeftFilterJoin(top.value, local.value);
            top := Some(id);
          } else {
            JoinedGathers(Tree(top.value), Tree(local.value));
            var id := CreateJoin(top.value, local.value);
            top := Some(id);
          }
        }
        NoGatherInChains(Tree(top.value), [], true, true, m.filters);
        var filtered := ApplyPredicateFilters(m.filters, top.value);
        top := Some(filtered);
      }
      assert ms[0..] == ms;
      root := CreateForeach(top.value);
    }
  }
}
