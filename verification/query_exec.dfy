/** Block-at-a-time execution of an operator tree: what the emitted loops of every thread do. */
module QueryExec {
  import opened Options
  import opened TableIters

  const BLOCK: nat := 256

  /** The address of the component of type `ctype` of an entity. */
  datatype Ptr = Ptr(ctype: string, entity: nat)

  /** A block of a component or tag table: the enabled slots. */
  datatype Block = Block(id: nat, enabled: set<nat>)

  /** A block of a reference table: the enabled slots with their targets. */
  datatype RefBlock = RefBlock(id: nat, targets: map<nat, nat>)

  /** Tables list their blocks in the order of their iterators; `holds` evaluates filter functions. */
  datatype Db = Db(tables: map<string, seq<Block>>, refs: map<string, seq<RefBlock>>, tags: map<string, seq<Block>>,
                   holds: (nat, seq<Ptr>) -> bool)

  datatype Op =
    | Scan(ctype: string)
    | RefScan(ref: string)
    | Join(left: Op, right: Op)
    | LeftFilterJoin(left: Op, right: Op)
    | TagFilter(child: Op, tag: string, has: bool, onColumn: bool)
    | PredicateFilter(child: Op, filter: nat)
    | Gather(child: Op, table: Op)

  /** The share of a thread. */
  datatype Part = Part(chunkSize: nat, offset: nat, stride: nat)

  ghost predicate PartOk(p: Part) {
    p.chunkSize > 0 && p.offset < p.stride
  }

  /** One column of a block cluster. */
  datatype Column =
    | Component(ctype: string)
    | Reference(ctype: string, targets: map<nat, nat>)
    | Ids(targets: map<nat, nat>)

  datatype Cluster = Cluster(block: nat, enabled: set<nat>, columns: seq<Column>)

  function Id(block: nat, offset: nat): nat { BLOCK * block + offset }

  /** What a system or filter is given for a slot of the column. */
  function Arg(c: Column, block: nat, offset: nat): seq<Ptr> {
    match c
    case Component(t) => [Ptr(t, Id(block, offset))]
    case Reference(t, targets) => if offset in targets then [Ptr(t, targets[offset])] else []
    case Ids(_) => []
  }

  function Args(columns: seq<Column>, block: nat, offset: nat): seq<Ptr> {
    if columns == [] then [] else Arg(columns[0], block, offset) + Args(columns[1..], block, offset)
  }

  lemma {:induction false} ArgsAppend(a: seq<Column>, b: seq<Column>, block: nat, offset: nat)
    ensures Args(a + b, block, offset) == Args(a, block, offset) + Args(b, block, offset)
  {
    if a == [] {
      assert a + b == b;
    } else {
      assert (a + b)[1..] == a[1..] + b;
      ArgsAppend(a[1..], b, block, offset);
    }
  }

  // ---- the columns as the compiler knows them

  datatype ColumnKind = ComponentColumn(ctype: string) | ReferenceColumn(ctype: string) | IdColumn(ref: string)

  function AsReferences(columns: seq<ColumnKind>): seq<ColumnKind> {
    if columns == [] then []
    else AsReferences(columns[..|columns| - 1])
         + [match columns[|columns| - 1] case ComponentColumn(t) => ReferenceColumn(t) case ReferenceColumn(t) => ReferenceColumn(t) case IdColumn(r) => ReferenceColumn(r)]
  }

  /** The columns of an operator. */
  function ColumnsOf(op: Op): seq<ColumnKind> {
    match op
    case Scan(t) => [ComponentColumn(t)]
    case RefScan(r) => [IdColumn(r)]
    case Join(l, r) => ColumnsOf(l) + ColumnsOf(r)
    case LeftFilterJoin(l, _) => ColumnsOf(l)
    case TagFilter(c, _, _, _) => ColumnsOf(c)
    case PredicateFilter(c, _) => ColumnsOf(c)
    case Gather(c, _) => AsReferences(ColumnsOf(c))
  }

  /**
   * What the code emitted for a column of kind `kind` passes for a slot: the address of the slot, or the pointer the slot
   * holds. It is of use only if the block at hand is of that kind.
   */
  function Passed(kind: ColumnKind, c: Column, block: nat, offset: nat): seq<Ptr> {
    match kind
    case ComponentColumn(_) => if c.Component? then [Ptr(c.ctype, Id(block, offset))] else []
    case ReferenceColumn(_) => if c.Reference? && offset in c.targets then [Ptr(c.ctype, c.targets[offset])] else []
    case IdColumn(_) => []
  }

  function PassedAll(kinds: seq<ColumnKind>, columns: seq<Column>, block: nat, offset: nat): seq<Ptr> {
    if kinds == [] || columns == [] then []
    else Passed(kinds[0], columns[0], block, offset) + PassedAll(kinds[1..], columns[1..], block, offset)
  }

  /** The column is of the kind the compiler takes it for. */
  predicate IsKind(c: Column, kind: ColumnKind) {
    match c
    case Component(t) => kind == ComponentColumn(t)
    case Reference(t, _) => kind == ReferenceColumn(t)
    case Ids(_) => kind.IdColumn?
  }

  ghost predicate KindsMatch(columns: seq<Column>, kinds: seq<ColumnKind>) {
    |columns| == |kinds| && forall i :: 0 <= i < |columns| ==> IsKind(columns[i], kinds[i])
  }

  /** On columns of the right kinds the emitted code passes the components' pointers. */
  lemma {:induction false} PassedIsArgs(columns: seq<Column>, kinds: seq<ColumnKind>, block: nat, offset: nat)
    requires KindsMatch(columns, kinds)
    ensures PassedAll(kinds, columns, block, offset) == Args(columns, block, offset)
  {
    if columns != [] {
      assert IsKind(columns[0], kinds[0]);
      PassedIsArgs(columns[1..], kinds[1..], block, offset);
    }
  }

  // ---- scans

  function ScanStream(blocks: seq<Block>, ctype: string, p: Part): seq<Cluster>
    requires p.chunkSize > 0 && p.stride > 0
  {
    if blocks == [] then []
    else
      (if IsSelected(blocks[0].id, p.chunkSize, p.offset, p.stride)
       then [Cluster(blocks[0].id, blocks[0].enabled, [Component(ctype)])] else [])
      + ScanStream(blocks[1..], ctype, p)
  }

  function RefStream(blocks: seq<RefBlock>, p: Part): seq<Cluster>
    requires p.chunkSize > 0 && p.stride > 0
  {
    if blocks == [] then []
    else
      (if IsSelected(blocks[0].id, p.chunkSize, p.offset, p.stride)
       then [Cluster(blocks[0].id, blocks[0].targets.Keys, [Ids(blocks[0].targets)])] else [])
      + RefStream(blocks[1..], p)
  }

  function TableOf<T>(tables: map<string, seq<T>>, name: string): seq<T> {
    if name in tables then tables[name] else []
  }

  // ---- the operators that consume clusters

  /** The cluster of a block in a build table: later insertions of the same block are ignored. */
  function Lookup(build: seq<Cluster>, block: nat): Option<Cluster> {
    if build == [] then None else if build[0].block == block then Some(build[0]) else Lookup(build[1..], block)
  }

  function Bits(blocks: seq<Block>, id: nat): Option<set<nat>> {
    if blocks == [] then None else if blocks[0].id == id then Some(blocks[0].enabled) else Bits(blocks[1..], id)
  }

  function TagHas(blocks: seq<Block>, entity: nat): bool {
    var bits := Bits(blocks, entity / BLOCK);
    bits.Some? && entity % BLOCK in bits.value
  }

  datatype Stage =
    | JoinStage(build: seq<Cluster>)
    | FilterStage(build: seq<Cluster>)
    | TagStage(tags: seq<Block>, has: bool)
    | ColumnStage(tags: seq<Block>, has: bool)
    | PredicateStage(filter: nat, kinds: seq<ColumnKind>)
    | TempStage(types: seq<string>)

  function SomeIfAny(c: Cluster): Option<Cluster> { if c.enabled == {} then None else Some(c) }

  /** The targets of a column of ids. */
  function TargetsOf(c: Cluster): map<nat, nat> {
    if c.columns != [] && c.columns[0].Ids? then c.columns[0].targets else map[]
  }

  /** The target's cluster in the hash table of the thread its block belongs to. */
  function TargetCluster(shares: seq<seq<Cluster>>, p: Part, target: nat): Option<Cluster>
    requires p.chunkSize > 0 && p.stride > 0
  {
    var u := BlockOffset(target / BLOCK, p.chunkSize, p.stride);
    if u < |shares| then Lookup(shares[u], target / BLOCK) else None
  }

  predicate TargetThere(shares: seq<seq<Cluster>>, p: Part, target: nat)
    requires p.chunkSize > 0 && p.stride > 0
  {
    var c := TargetCluster(shares, p, target);
    c.Some? && target % BLOCK in c.value.enabled
  }

  /** The component types of an operator's columns. */
  function Types(op: Op): seq<string> {
    match op
    case Scan(t) => [t]
    case RefScan(_) => []
    case Join(l, r) => Types(l) + Types(r)
    case LeftFilterJoin(l, _) => Types(l)
    case TagFilter(child, _, _, _) => Types(child)
    case PredicateFilter(child, _) => Types(child)
    case Gather(child, _) => Types(child)
  }

  function References(types: seq<string>, targets: map<nat, nat>): seq<Column> {
    if types == [] then [] else [Reference(types[0], targets)] + References(types[1..], targets)
  }

  /** What an operator passes on for one cluster it is given. */
  function Consume(db: Db, stage: Stage, c: Cluster): Option<Cluster>
  {
    match stage
    case JoinStage(build) =>
      var b := Lookup(build, c.block);
      if b.None? then None
      else SomeIfAny(Cluster(c.block, b.value.enabled * c.enabled, b.value.columns + c.columns))
    case FilterStage(build) =>
      var b := Lookup(build, c.block);
      if b.None? then None else SomeIfAny(Cluster(c.block, b.value.enabled * c.enabled, b.value.columns))
    case TagStage(tags, has) =>
      var bits := Bits(tags, c.block);
      var on := if bits.Some? then bits.value else {};
      SomeIfAny(c.(enabled := if has then c.enabled * on else c.enabled - on))
    case ColumnStage(tags, has) =>
      var targets := TargetsOf(c);
      SomeIfAny(c.(enabled := set i | i in c.enabled && i in targets && TagHas(tags, targets[i]) == has))
    case PredicateStage(f, kinds) =>
      SomeIfAny(c.(enabled := set i | i in c.enabled && db.holds(f, PassedAll(kinds, c.columns, c.block, i))))
    case TempStage(types) => Some(c.(columns := References(types, TargetsOf(c))))
  }

  function Push(db: Db, stage: Stage, stream: seq<Cluster>): seq<Cluster>
  {
    if stream == [] then []
    else
      var out := Consume(db, stage, stream[0]);
      (if out.Some? then [out.value] else []) + Push(db, stage, stream[1..])
  }

  // ---- the temporary tables of a gather

  /** The slots of a reference cluster whose target has been gathered, with their targets. */
  function Found(shares: seq<seq<Cluster>>, p: Part, c: Cluster): map<nat, nat>
    requires p.chunkSize > 0 && p.stride > 0
  {
    var targets := TargetsOf(c);
    map i | i in c.enabled && i in targets && TargetThere(shares, p, targets[i]) :: targets[i]
  }

  /** Slots go into their block, which is created in block order. */
  function Put(temp: seq<RefBlock>, block: nat, found: map<nat, nat>): seq<RefBlock> {
    if temp == [] || block < temp[0].id then [RefBlock(block, found)] + temp
    else if temp[0].id == block then [RefBlock(block, temp[0].targets + found)] + temp[1..]
    else [temp[0]] + Put(temp[1..], block, found)
  }

  /** The tables after one reference cluster; a block is created by its first slot. */
  function Fill(shares: seq<seq<Cluster>>, p: Part, temp: seq<RefBlock>, c: Cluster): seq<RefBlock>
    requires p.chunkSize > 0 && p.stride > 0
  {
    var found := Found(shares, p, c);
    if found == map[] then temp else Put(temp, c.block, found)
  }

  function FillAll(shares: seq<seq<Cluster>>, p: Part, temp: seq<RefBlock>, stream: seq<Cluster>): seq<RefBlock>
    requires p.chunkSize > 0 && p.stride > 0
    decreases |stream|
  {
    if stream == [] then temp else FillAll(shares, p, Fill(shares, p, temp, stream[0]), stream[1..])
  }

  /** The clusters an operator hands to its parent in the thread with share `p`. */
  function Run(db: Db, op: Op, p: Part): seq<Cluster>
    requires p.chunkSize > 0 && p.stride > 0
    decreases op, 0
  {
    match op
    case Scan(t) => ScanStream(TableOf(db.tables, t), t, p)
    case RefScan(r) => RefStream(TableOf(db.refs, r), p)
    case Join(l, r) => Push(db, JoinStage(Run(db, l, p)), Run(db, r, p))
    case LeftFilterJoin(l, r) => Push(db, FilterStage(Run(db, l, p)), Run(db, r, p))
    case TagFilter(child, tag, has, onColumn) =>
      Push(db, if onColumn then ColumnStage(TableOf(db.tags, tag), has) else TagStage(TableOf(db.tags, tag), has), Run(db, child, p))
    case PredicateFilter(child, f) => Push(db, PredicateStage(f, ColumnsOf(child)), Run(db, child, p))
    case Gather(child, table) =>
      var temp := FillAll(Shares(db, child, p, p.stride), p, [], Run(db, table, p));
      Push(db, TempStage(Types(child)), RefStream(temp, p))
  }

  /** The streams of the first `n` threads. */
  function Shares(db: Db, op: Op, p: Part, n: nat): (shares: seq<seq<Cluster>>)
    requires p.chunkSize > 0 && p.stride > 0
    ensures |shares| == n
    decreases op, 1 + n
  {
    if n == 0 then [] else Shares(db, op, p, n - 1) + [Run(db, op, p.(offset := n - 1))]
  }
}
