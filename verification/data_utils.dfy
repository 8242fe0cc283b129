/** The loops over one block that the generated gather code calls. */
module DataUtils {
  import opened Options
  import opened Bitmaps
  import opened BitTables
  import opened CascadingGather
  import opened TableIters

  // ---- the sources of a block

  /** The references of a block of ids: the enabled slots and their targets. */
  function RefsOf(start: nat, data: seq<nat>, enabled: set<nat>): map<nat, nat>
    requires |data| == BLOCK_SIZE
  {
    map id: nat | id < start + BLOCK_SIZE && IsSource(start, enabled, id) :: data[id - start]
  }

  predicate IsSource(start: nat, enabled: set<nat>, id: nat) {
    start <= id && id - start in enabled
  }

  /** The enabled ids among the first `n` slots, in slot order. */
  ghost function Sources(start: nat, enabled: set<nat>, n: nat): seq<nat> {
    if n == 0 then [] else Sources(start, enabled, n - 1) + (if n - 1 in enabled then [start + n - 1] else [])
  }

  lemma {:induction false} SourcesHave(start: nat, enabled: set<nat>, n: nat, id: nat)
    ensures id in Sources(start, enabled, n) <==> start <= id < start + n && id - start in enabled
  {
    if n > 0 { SourcesHave(start, enabled, n - 1, id); }
  }

  /** Scanning a list of sources one by one. */
  function FindRoots(refs: map<nat, nat>, sources: seq<nat>, roots: set<nat>, black: set<nat>): (set<nat>, set<nat>) {
    if sources == [] then (roots, black)
    else
      var (r, b) := FindRoots(refs, sources[..|sources| - 1], roots, black);
      var last := sources[|sources| - 1];
      if last in refs then FindRoot(refs, last, r, b) else (r, b)
  }

  /** However a thread's sources are cut into blocks, the scan ends with its targets that are not its own sources. */
  lemma {:induction false} FindRootsExact(refs: map<nat, nat>, before: seq<nat>, sources: seq<nat>)
    requires forall s :: s in sources ==> s in refs
    ensures FindRoots(refs, sources, Roots(refs, before), Entities(before))
            == (Roots(refs, before + sources), Entities(before + sources))
  {
    hide FindRoot, Roots, Entities;
    if sources == [] {
      assert before + sources == before;
    } else {
      var front, last := sources[..|sources| - 1], sources[|sources| - 1];
      FindRootsExact(refs, before, front);
      FindRootStep(refs, before + front, last);
      assert before + front + [last] == before + sources;
    }
  }

  ghost predicate Apart(a: BitTable, b: BitTable)
    reads a, b
  {
    a != b && a !in b.repr && b !in a.repr && a.repr !! b.repr
  }

  ghost predicate Outside(m: Bitmap, t: BitTable)
    reads t
  {
    m !in t.repr && m.data !in t.repr
  }

  method FindRootsAndBlacklist(start: nat, data: seq<nat>, enabled: Bitmap, roots: BitTable, blacklist: BitTable)
    requires |data| == BLOCK_SIZE == enabled.maxBits && enabled.Valid() && roots.Valid() && blacklist.Valid()
    requires Apart(roots, blacklist) && Outside(enabled, roots) && Outside(enabled, blacklist)
    modifies roots, roots.repr, blacklist, blacklist.repr
    ensures roots.Valid() && blacklist.Valid() && Apart(roots, blacklist)
    ensures fresh(roots.repr - old(roots.repr)) && fresh(blacklist.repr - old(blacklist.repr))
    ensures (roots.ids, blacklist.ids) == FindRoots(RefsOf(start, data, enabled.Set()), Sources(start, enabled.Set(), BLOCK_SIZE),
                                                    old(roots.ids), old(blacklist.ids))
  {
    hide BitTable.Valid, Bitmap.Valid, Bitmap.Set, FindRoots, Sources;
    ghost var refs, on, r0, b0 := RefsOf(start, data, enabled.Set()), enabled.Set(), roots.ids, blacklist.ids;
    NoSources(refs, start, on, r0, b0);
    var i := 0;
    while i < BLOCK_SIZE
      invariant 0 <= i <= BLOCK_SIZE && roots.Valid() && blacklist.Valid() && Apart(roots, blacklist)
      invariant fresh(roots.repr - old(roots.repr)) && fresh(blacklist.repr - old(blacklist.repr))
      invariant (roots.ids, blacklist.ids) == FindRoots(refs, Sources(start, on, i), r0, b0)
    {
      NextSource(refs, start, on, i, r0, b0);
      var isSet := enabled.IsSet(i);
      if isSet {
        var other := data[i];
        blacklist.Add(start + i);
        roots.Remove(start + i);
        var known := blacklist.Exists(other);
        if !known { roots.Add(other); }
      }
      i := i + 1;
    }
  }

  lemma NoSources(refs: map<nat, nat>, start: nat, on: set<nat>, r0: set<nat>, b0: set<nat>)
    ensures FindRoots(refs, Sources(start, on, 0), r0, b0) == (r0, b0)
  {
  }

  lemma NextSource(refs: map<nat, nat>, start: nat, on: set<nat>, i: nat, r0: set<nat>, b0: set<nat>)
    ensures var (r, b) := FindRoots(refs, Sources(start, on, i), r0, b0);
      FindRoots(refs, Sources(start, on, i + 1), r0, b0)
      == if i in on && start + i in refs then FindRoot(refs, start + i, r, b) else (r, b)
  {
    var before, after := Sources(start, on, i), Sources(start, on, i + 1);
    if i in on {
      assert after == before + [start + i] && after[..|after| - 1] == before;
    } else {
      assert after == before;
    }
  }

  // ---- frontiers

  ghost function IdsOf(tables: seq<BitTable>): (r: seq<set<nat>>)
    reads tables
    ensures |r| == |tables| && forall i :: 0 <= i < |r| ==> r[i] == tables[i].ids
  {
    seq(|tables|, (i: nat) requires i < |tables| reads tables => tables[i].ids)
  }

  function UnionOf(sets: seq<set<nat>>): set<nat> {
    if sets == [] then {} else UnionOf(sets[..|sets| - 1]) + sets[|sets| - 1]
  }

  lemma OneMore(sets: seq<set<nat>>, i: nat)
    requires i < |sets|
    ensures UnionOf(sets[..i + 1]) == UnionOf(sets[..i]) + sets[i]
  {
    assert sets[..i + 1][..i] == sets[..i];
  }

  /** The tables of the threads are valid, hold `ids`, and share nothing with `current`. */
  ghost predicate Offered(tables: seq<BitTable>, current: BitTable, ids: seq<set<nat>>)
    reads current, tables, set t, o | t in tables && o in t.repr :: o
  {
    |ids| == |tables| && forall i :: 0 <= i < |tables| ==> tables[i].Valid() && tables[i].ids == ids[i] && Apart(current, tables[i])
  }

  /** One table changes `current` only. */
  method JoinOne(tables: seq<BitTable>, i: nat, current: BitTable, op: BitTableOp, ghost ids: seq<set<nat>>)
    requires i < |tables| && op != OpAnd && current.Valid() && Offered(tables, current, ids)
    modifies current, current.repr
    ensures current.Valid() && current.ids == Combine(op, old(current.ids), ids[i]) && Offered(tables, current, ids)
    ensures fresh(current.repr - old(current.repr))
  {
    hide BitTable.Valid, Bitmap.Set, Bitmap.Valid;
    current.ApplyAll(tables[i], op);
  }

  /** Joins the next frontiers of all threads into this thread's current frontier. */
  method FrontiersUnion(tables: seq<BitTable>, current: BitTable)
    requires current.Valid() && Offered(tables, current, IdsOf(tables))
    modifies current, current.repr
    ensures current.Valid() && current.ids == old(current.ids) + UnionOf(old(IdsOf(tables)))
  {
    hide BitTable.Valid, Offered, UnionOf;
    ghost var before, repr, ids := current.ids, current.repr, IdsOf(tables);
    NoSets();
    var i := 0;
    while i < |tables|
      invariant 0 <= i <= |tables| == |ids| && current.Valid() && fresh(current.repr - repr) && Offered(tables, current, ids)
      invariant current.ids == before + UnionOf(ids[..i])
    {
      OneMore(ids, i);
      JoinOne(tables, i, current, OpOr, ids);
      i := i + 1;
    }
    assert ids[..i] == ids;
  }

  lemma NoSets()
    ensures UnionOf([]) == {}
  {
  }

  /** Takes the sources of all threads out of the frontier. */
  method FilterBlacklists(tables: seq<BitTable>, current: BitTable)
    requires current.Valid() && Offered(tables, current, IdsOf(tables))
    modifies current, current.repr
    ensures current.Valid() && current.ids == old(current.ids) - UnionOf(old(IdsOf(tables)))
  {
    hide BitTable.Valid, Offered, UnionOf;
    ghost var before, repr, ids := current.ids, current.repr, IdsOf(tables);
    NoSets();
    var i := 0;
    while i < |tables|
      invariant 0 <= i <= |tables| == |ids| && current.Valid() && fresh(current.repr - repr) && Offered(tables, current, ids)
      invariant current.ids == before - UnionOf(ids[..i])
    {
      OneMore(ids, i);
      JoinOne(tables, i, current, OpDiff, ids);
      i := i + 1;
    }
    assert ids[..i] == ids;
  }

  // ---- gathering component pointers

  /** The address of the component of `entity` in column `column` of the gathered stream. */
  datatype Pointer = Pointer(column: nat, entity: nat)

  /** The hash tables of all threads: the enabled slots of every block that a thread has gathered. */
  type HashTables = seq<map<nat, set<nat>>>

  /** The target's components are in the table of the thread its block belongs to. */
  predicate Available(tables: HashTables, chunkSize: nat, stride: nat, target: nat)
    requires chunkSize > 0 && stride > 0 && |tables| == stride
  {
    var block := target / BLOCK_SIZE;
    var table := tables[BlockOffset(block, chunkSize, stride)];
    block in table && target % BLOCK_SIZE in table[block]
  }

  /** Every thread has put exactly its own blocks of `stream` into its table. */
  ghost predicate Shared(tables: HashTables, chunkSize: nat, stride: nat, stream: map<nat, set<nat>>)
    requires chunkSize > 0 && stride > 0
  {
    && |tables| == stride
    && forall t, b :: 0 <= t < stride ==>
         (b in tables[t] <==> b in stream && BlockOffset(b, chunkSize, stride) == t) && (b in tables[t] ==> tables[t][b] == stream[b])
  }

  /** One thread's table is enough: the lookup sees a target exactly when some thread gathered it. */
  lemma OneTableSuffices(tables: HashTables, chunkSize: nat, stride: nat, stream: map<nat, set<nat>>, target: nat)
    requires chunkSize > 0 && stride > 0 && Shared(tables, chunkSize, stride, stream)
    ensures Available(tables, chunkSize, stride, target)
            <==> target / BLOCK_SIZE in stream && target % BLOCK_SIZE in stream[target / BLOCK_SIZE]
  {
    var block := target / BLOCK_SIZE;
    var t := BlockOffset(block, chunkSize, stride);
    assert block in tables[t] <==> block in stream && BlockOffset(block, chunkSize, stride) == t;
  }

  /** The temporary tables of one thread, one for each gathered column. */
  class TempTables {
    var rows: seq<map<nat, Pointer>>

    constructor (columns: nat)
      ensures |rows| == columns && forall c :: 0 <= c < columns ==> rows[c] == map[]
    {
      rows := seq(columns, _ => map[]);
    }

    /** Stores the pointers of the target's components under the source in every temporary table. */
    method CopyComponentPtr(chunkSize: nat, stride: nat, source: nat, target: nat, tables: HashTables)
      requires chunkSize > 0 && stride > 0 && |tables| == stride
      modifies this
      ensures |rows| == |old(rows)|
      ensures forall c :: 0 <= c < |rows| ==>
                rows[c] == if Available(tables, chunkSize, stride, target) then old(rows)[c][source := Pointer(c, target)]
                           else old(rows)[c]
    {
      var block := target / BLOCK_SIZE;
      var table := tables[BlockOffset(block, chunkSize, stride)];
      if block in table {
        if target % BLOCK_SIZE in table[block] {
          var i := 0;
          while i < |rows|
            invariant 0 <= i <= |rows| == |old(rows)|
            invariant forall c :: 0 <= c < |rows| ==> rows[c] == if c < i then old(rows)[c][source := Pointer(c, target)] else old(rows)[c]
          {
            var row: map<nat, Pointer> := rows[i][source := Pointer(i, target)];
            rows := rows[i := row];
            i := i + 1;
          }
        }
      }
    }

    /** For every enabled source whose target is available, each temporary table gets the target's component. */
    method Gather(start: nat, data: seq<nat>, enabled: Bitmap, tables: HashTables, chunkSize: nat, stride: nat)
      requires |data| == BLOCK_SIZE == enabled.maxBits && enabled.Valid()
      requires chunkSize > 0 && stride > 0 && |tables| == stride
      modifies this
      ensures |rows| == |old(rows)|
      ensures forall c :: 0 <= c < |rows| ==>
                FilledUpTo(old(rows)[c], rows[c], c, start, data, enabled.Set(), tables, chunkSize, stride, BLOCK_SIZE)
      ensures old(Aligned(rows)) ==> Aligned(rows)
    {
      hide Bitmap.Set, Bitmap.Valid, Available, FilledUpTo, Aligned;
      ghost var on, was := enabled.Set(), rows;
      FilledStart(was, start, data, on, tables, chunkSize, stride);
      var i := 0;
      while i < BLOCK_SIZE
        invariant 0 <= i <= BLOCK_SIZE && |rows| == |was| && enabled.Valid() && enabled.Set() == on
        invariant forall c :: 0 <= c < |rows| ==> FilledUpTo(was[c], rows[c], c, start, data, on, tables, chunkSize, stride, i)
      {
        ghost var before := rows;
        var isSet := enabled.IsSet(i);
        if isSet { CopyComponentPtr(chunkSize, stride, start + i, data[i], tables); }
        forall c | 0 <= c < |rows| ensures FilledUpTo(was[c], rows[c], c, start, data, on, tables, chunkSize, stride, i + 1) {
          FilledStep(was[c], before[c], c, start, data, on, tables, chunkSize, stride, i);
        }
        i := i + 1;
      }
      if Aligned(was) { FilledAligned(was, rows, start, data, on, tables, chunkSize, stride, BLOCK_SIZE); }
    }
  }

  predicate Gathered(start: nat, data: seq<nat>, enabled: set<nat>, tables: HashTables, chunkSize: nat, stride: nat, n: nat, id: nat)
    requires chunkSize > 0 && stride > 0 && |tables| == stride
  {
    start <= id < start + n && id - start < |data| && id - start in enabled && Available(tables, chunkSize, stride, data[id - start])
  }

  /** What is stored for `id` after the first `n` slots. */
  ghost predicate FilledAt(before: map<nat, Pointer>, after: map<nat, Pointer>, column: nat, start: nat, data: seq<nat>,
                           enabled: set<nat>, tables: HashTables, chunkSize: nat, stride: nat, n: nat, id: nat)
    requires chunkSize > 0 && stride > 0 && |tables| == stride
  {
    if Gathered(start, data, enabled, tables, chunkSize, stride, n, id)
    then id in after && after[id] == Pointer(column, data[id - start])
    else (id in after <==> id in before) && (id in before ==> after[id] == before[id])
  }

  ghost predicate FilledUpTo(before: map<nat, Pointer>, after: map<nat, Pointer>, column: nat, start: nat, data: seq<nat>,
                             enabled: set<nat>, tables: HashTables, chunkSize: nat, stride: nat, n: nat)
    requires chunkSize > 0 && stride > 0 && |tables| == stride
  {
    forall id: nat {:trigger FilledAt(before, after, column, start, data, enabled, tables, chunkSize, stride, n, id)} ::
      FilledAt(before, after, column, start, data, enabled, tables, chunkSize, stride, n, id)
  }

  lemma FilledStep(before: map<nat, Pointer>, after: map<nat, Pointer>, column: nat, start: nat, data: seq<nat>,
                   enabled: set<nat>, tables: HashTables, chunkSize: nat, stride: nat, n: nat)
    requires chunkSize > 0 && stride > 0 && |tables| == stride && n < |data|
    requires FilledUpTo(before, after, column, start, data, enabled, tables, chunkSize, stride, n)
    ensures FilledUpTo(before, if n in enabled && Available(tables, chunkSize, stride, data[n])
                               then after[start + n := Pointer(column, data[n])] else after,
                       column, start, data, enabled, tables, chunkSize, stride, n + 1)
  {
    hide Available;
    var filled := if n in enabled && Available(tables, chunkSize, stride, data[n]) then after[start + n := Pointer(column, data[n])]
                  else after;
    forall id: nat {:trigger FilledAt(before, filled, column, start, data, enabled, tables, chunkSize, stride, n + 1, id)}
      ensures FilledAt(before, filled, column, start, data, enabled, tables, chunkSize, stride, n + 1, id)
    {
      assert FilledAt(before, after, column, start, data, enabled, tables, chunkSize, stride, n, id);
    }
  }

  lemma FilledStart(rows: seq<map<nat, Pointer>>, start: nat, data: seq<nat>, enabled: set<nat>, tables: HashTables,
                    chunkSize: nat, stride: nat)
    requires chunkSize > 0 && stride > 0 && |tables| == stride
    ensures forall c :: 0 <= c < |rows| ==> FilledUpTo(rows[c], rows[c], c, start, data, enabled, tables, chunkSize, stride, 0)
  {
  }

  /** All temporary tables have the same entities. */
  ghost predicate Aligned(rows: seq<map<nat, Pointer>>) {
    forall c, d, id {:trigger id in rows[c], id in rows[d]} :: 0 <= c < |rows| && 0 <= d < |rows| && id in rows[c] ==> id in rows[d]
  }

  lemma FilledAligned(was: seq<map<nat, Pointer>>, rows: seq<map<nat, Pointer>>, start: nat, data: seq<nat>, enabled: set<nat>,
                      tables: HashTables, chunkSize: nat, stride: nat, n: nat)
    requires chunkSize > 0 && stride > 0 && |tables| == stride && |rows| == |was| && Aligned(was)
    requires forall c :: 0 <= c < |rows| ==> FilledUpTo(was[c], rows[c], c, start, data, enabled, tables, chunkSize, stride, n)
    ensures Aligned(rows)
  {
    hide Gathered;
    forall c, d, id {:trigger id in rows[c], id in rows[d]} | 0 <= c < |rows| && 0 <= d < |rows| && id in rows[c] ensures id in rows[d] {
      assert FilledAt(was[c], rows[c], c, start, data, enabled, tables, chunkSize, stride, n, id);
      assert FilledAt(was[d], rows[d], d, start, data, enabled, tables, chunkSize, stride, n, id);
      assert id in was[c] ==> id in was[d];
    }
  }

  /** The table has a block from the first entity of the block on. */
  predicate KnowsBlock(row: map<nat, Pointer>, block: nat) {
    exists id :: id in row && BlockOf(id) == block
  }

  /** What the first table knows all of them know. */
  predicate InTables(rows: seq<map<nat, Pointer>>, block: nat) {
    |rows| > 0 && KnowsBlock(rows[0], block)
  }

  lemma SameBlock(rows: seq<map<nat, Pointer>>, c: nat, block: nat)
    requires Aligned(rows) && c < |rows|
    ensures KnowsBlock(rows[c], block) <==> KnowsBlock(rows[0], block)
  {
    hide BlockOf;
    if id :| id in rows[c] && BlockOf(id) == block { assert id in rows[0]; }
    if id :| id in rows[0] && BlockOf(id) == block { assert id in rows[c]; }
  }

  // ---- the cluster of a block of sources

  ghost function SlotsWith(data: seq<nat>, enabled: set<nat>, ids: set<nat>): set<nat> {
    set i | i in enabled && i < |data| && data[i] in ids
  }

  /**
   * The sources of a block whose target is in the current frontier: they are enabled in the cluster and join the
   * next frontier. A block that no table knows is passed over; any other one is in all tables.
   */
  method BuildClusterFromRefs(start: nat, data: seq<nat>, refs: Bitmap, current: BitTable, next: BitTable, cluster: Bitmap,
                              temp: TempTables) returns (columns: nat)
    requires |data| == BLOCK_SIZE == refs.maxBits == cluster.maxBits && refs.Valid() && cluster.Valid() && Aligned(temp.rows)
    requires refs.data != cluster.data && current.Valid() && next.Valid() && Apart(next, current)
    requires Outside(refs, next) && Outside(cluster, next) && Outside(cluster, current) && temp !in next.repr
    requires forall i :: i in refs.Set() ==> start + i !in next.ids
    modifies cluster`numSet, cluster.data, next, next.repr
    ensures cluster.Valid() && next.Valid() && fresh(next.repr - old(next.repr))
    ensures columns == if InTables(temp.rows, BlockOf(start)) then |temp.rows| else 0
    ensures cluster.Set() == if InTables(temp.rows, BlockOf(start)) then SlotsWith(data, refs.Set(), current.ids)
                             else old(cluster.Set())
    ensures forall id :: id in next.ids <==>
              id in old(next.ids)
              || (InTables(temp.rows, BlockOf(start)) && start <= id && id - start in SlotsWith(data, refs.Set(), current.ids))
  {
    hide Bitmap.Set, Bitmap.Valid, BitTable.Valid, SlotsWith, KnowsBlock, BlockOf, Aligned;
    columns := CountBlocks(temp.rows, BlockOf(start));
    if columns > 0 {
      BuildSlots(start, data, refs, current, next, cluster, refs.Set(), current.ids);
    }
  }

  /** The number of tables that know the block: all of them, or none. */
  method CountBlocks(rows: seq<map<nat, Pointer>>, block: nat) returns (columns: nat)
    requires Aligned(rows)
    ensures columns == if InTables(rows, block) then |rows| else 0
  {
    hide KnowsBlock, Aligned;
    columns := 0;
    var i := 0;
    while i < |rows|
      invariant 0 <= i <= |rows| && columns == if InTables(rows, block) then i else 0
    {
      SameBlock(rows, i, block);
      if KnowsBlock(rows[i], block) { columns := columns + 1; }
      i := i + 1;
    }
  }

  method BuildSlots(start: nat, data: seq<nat>, refs: Bitmap, current: BitTable, next: BitTable, cluster: Bitmap,
                    ghost on: set<nat>, ghost frontier: set<nat>)
    requires |data| == BLOCK_SIZE == refs.maxBits == cluster.maxBits && refs.Valid() && cluster.Valid()
    requires refs != cluster && refs.data != cluster.data && current.Valid() && next.Valid() && Apart(next, current)
    requires Outside(refs, next) && Outside(cluster, next) && Outside(cluster, current)
    requires on == refs.Set() && frontier == current.ids
    requires forall i :: i in on ==> start + i !in next.ids
    modifies cluster`numSet, cluster.data, next, next.repr
    ensures cluster.Valid() && next.Valid() && fresh(next.repr - old(next.repr)) && cluster.Set() == SlotsWith(data, on, frontier)
    ensures forall id :: id in next.ids <==> id in old(next.ids) || (start <= id && id - start in SlotsWith(data, on, frontier))
  {
    hide Bitmap.Set, Bitmap.Valid, BitTable.Valid, Built, SlotsWith;
    cluster.Nullify();
    ghost var slots, before, repr := SlotsWith(data, on, frontier), next.ids, next.repr;
    BuiltStart(start, slots, before);
    var i := 0;
    while i < BLOCK_SIZE
      invariant 0 <= i <= BLOCK_SIZE && cluster.Valid() && next.Valid() && current.Valid() && refs.Valid()
      invariant current.ids == frontier && refs.Set() == on
      invariant fresh(next.repr - repr) && Apart(next, current) && Outside(refs, next) && Outside(cluster, next)
      invariant Built(start, slots, i, cluster.Set(), before, next.ids)
    {
      SlotIn(data, on, frontier, i);
      BuiltStep(start, slots, i, cluster.Set(), before, next.ids);
      VisitSlot(start, data[i], i, refs, current, next, cluster);
      i := i + 1;
    }
    BuiltEnd(start, data, on, frontier, cluster.Set(), before, next.ids);
  }

  method VisitSlot(start: nat, target: nat, i: nat, refs: Bitmap, current: BitTable, next: BitTable, cluster: Bitmap)
    requires i < BLOCK_SIZE == refs.maxBits == cluster.maxBits && refs.Valid() && cluster.Valid()
    requires refs != cluster && refs.data != cluster.data && current.Valid() && next.Valid() && Apart(next, current)
    requires Outside(refs, next) && Outside(cluster, next) && Outside(cluster, current)
    requires i in refs.Set() ==> start + i !in next.ids
    modifies cluster`numSet, cluster.data, next, next.repr
    ensures cluster.Valid() && next.Valid() && current.Valid() && refs.Valid()
    ensures Apart(next, current) && fresh(next.repr - old(next.repr)) && Outside(refs, next) && Outside(cluster, next)
    ensures current.ids == old(current.ids) && refs.Set() == old(refs.Set()) && current.repr == old(current.repr)
    ensures var reached := i in refs.Set() && target in current.ids;
      && cluster.Set() == (if reached then old(cluster.Set()) + {i} else old(cluster.Set()))
      && next.ids == (if reached then old(next.ids) + {start + i} else old(next.ids))
  {
    hide Bitmap.Set, Bitmap.Valid, BitTable.Valid;
    var isSet := refs.IsSet(i);
    if isSet {
      var reached := current.Exists(target);
      if reached {
        cluster.SetElement(i);
        var present := next.Exists(start + i);
        assert !present;
        next.Add(start + i);
      }
    }
  }

  /** The first `i` slots are done. */
  ghost predicate Built(start: nat, slots: set<nat>, i: nat, on: set<nat>, before: set<nat>, ids: set<nat>) {
    && (forall j: nat :: j in on <==> j in slots && j < i)
    && (forall id: nat :: id in ids <==> id in before || (start <= id < start + i && id - start in slots))
  }

  lemma BuiltStart(start: nat, slots: set<nat>, before: set<nat>)
    ensures Built(start, slots, 0, {}, before, before)
  {
  }

  lemma BuiltStep(start: nat, slots: set<nat>, i: nat, on: set<nat>, before: set<nat>, ids: set<nat>)
    requires Built(start, slots, i, on, before, ids)
    ensures i in slots ==> Built(start, slots, i + 1, on + {i}, before, ids + {start + i})
    ensures i !in slots ==> Built(start, slots, i + 1, on, before, ids)
    ensures start + i in ids ==> start + i in before
  {
  }

  lemma SlotIn(data: seq<nat>, enabled: set<nat>, ids: set<nat>, i: nat)
    requires i < |data|
    ensures i in SlotsWith(data, enabled, ids) <==> i in enabled && data[i] in ids
  {
  }

  lemma BuiltEnd(start: nat, data: seq<nat>, enabled: set<nat>, ids: set<nat>, on: set<nat>, before: set<nat>, after: set<nat>)
    requires |data| == BLOCK_SIZE && Built(start, SlotsWith(data, enabled, ids), BLOCK_SIZE, on, before, after)
    ensures on == SlotsWith(data, enabled, ids)
    ensures forall id :: id in after <==> id in before || (start <= id && id - start in SlotsWith(data, enabled, ids))
  {
  }

  // ---- tag filters on a column of references

  /** Keeps the slots whose reference is in the table. */
  method FilterExists(table: BitTable, enabled: Bitmap, data: seq<nat>)
    requires |data| == BLOCK_SIZE == enabled.maxBits && enabled.Valid() && table.Valid() && Outside(enabled, table)
    modifies enabled`numSet, enabled.data
    ensures enabled.Valid() && enabled.Set() == SlotsWith(data, old(enabled.Set()), table.ids)
  {
    hide Bitmap.Set, BitTable.Valid;
    ghost var before := enabled.Set();
    var i := 0;
    while i < BLOCK_SIZE
      invariant 0 <= i <= BLOCK_SIZE && enabled.Valid() && table.Valid()
      invariant enabled.Set() == set j | j in before && (j < i ==> data[j] in table.ids)
    {
      var isSet := enabled.IsSet(i);
      if isSet {
        var known := table.Exists(data[i]);
        if !known { enabled.UnsetElement(i); }
      }
      i := i + 1;
    }
    BitmapRange(enabled);
  }

  /** Keeps the slots whose reference is not in the table. */
  method FilterNotExists(table: BitTable, enabled: Bitmap, data: seq<nat>)
    requires |data| == BLOCK_SIZE == enabled.maxBits && enabled.Valid() && table.Valid() && Outside(enabled, table)
    modifies enabled`numSet, enabled.data
    ensures enabled.Valid()
    ensures enabled.Set() == old(enabled.Set()) - SlotsWith(data, old(enabled.Set()), table.ids)
  {
    hide Bitmap.Set, BitTable.Valid;
    ghost var before := enabled.Set();
    var i := 0;
    while i < BLOCK_SIZE
      invariant 0 <= i <= BLOCK_SIZE && enabled.Valid() && table.Valid()
      invariant enabled.Set() == set j | j in before && !(j < i && data[j] in table.ids)
    {
      var isSet := enabled.IsSet(i);
      if isSet {
        var known := table.Exists(data[i]);
        if known { enabled.UnsetElement(i); }
      }
      i := i + 1;
    }
  }
}
