/**
 * The phases of the cascading gather as one thread runs them on its tables: they do what the sub-steps of the
 * protocol do to the thread's part of the state.
 */
module GatherPhases {
  import opened Bitmaps
  import opened BitTables
  import opened CascadingGather
  import opened DataUtils
  import opened ReferenceChains

  /** A block of the reference table, as the thread keeps it in its hash table. */
  datatype SourceBlock = SourceBlock(start: nat, data: seq<nat>, enabled: Bitmap)

  /** The value of such a block. */
  datatype View = View(start: nat, data: seq<nat>, on: set<nat>)

  ghost predicate Shows(b: SourceBlock, v: View)
    reads b.enabled, b.enabled.data
  {
    && b.start == v.start && b.data == v.data && |b.data| == BLOCK_SIZE == b.enabled.maxBits
    && b.enabled.Valid() && b.enabled.Set() == v.on
  }

  ghost predicate Shown(blocks: seq<SourceBlock>, views: seq<View>)
    reads set b | b in blocks :: b.enabled, set b | b in blocks :: b.enabled.data
  {
    |blocks| == |views| && forall i :: 0 <= i < |blocks| ==> Shows(blocks[i], views[i])
  }

  ghost predicate Away(blocks: seq<SourceBlock>, table: BitTable)
    reads table
  {
    forall b :: b in blocks ==> Outside(b.enabled, table)
  }

  ghost function SourcesIn(v: View): seq<nat> { Sources(v.start, v.on, BLOCK_SIZE) }

  /** The sources of the blocks in scan order. */
  ghost function SourcesOf(views: seq<View>): seq<nat> {
    if views == [] then [] else SourcesOf(views[..|views| - 1]) + SourcesIn(views[|views| - 1])
  }

  /** The block is part of the reference table, and its targets' data is what the threads have gathered. */
  ghost predicate Refers(c: Config, v: View, tables: HashTables, chunkSize: nat, stride: nat)
    requires chunkSize > 0 && stride > 0 && |tables| == stride
  {
    && v.start % BLOCK_SIZE == 0 && |v.data| == BLOCK_SIZE && (forall i :: i in v.on ==> i < BLOCK_SIZE)
    && forall i :: i in v.on ==> v.start + i in c.refs && c.refs[v.start + i] == v.data[i]
                                 && (v.data[i] in c.data <==> Available(tables, chunkSize, stride, v.data[i]))
  }

  // ---- the scan for roots

  /** The table holds the targets' components of exactly the sources whose target has data. */
  ghost predicate RowHolds(row: map<nat, Pointer>, column: nat, c: Config, sources: seq<nat>) {
    && (forall id :: id in row <==> id in sources && HasData(c, id))
    && (forall id :: id in row && HasData(c, id) ==> row[id] == Pointer(column, c.refs[id]))
  }

  lemma {:induction false} FindRootsAgree(refs: map<nat, nat>, refs': map<nat, nat>, sources: seq<nat>, roots: set<nat>, black: set<nat>)
    requires forall s :: s in sources ==> s in refs && s in refs' && refs[s] == refs'[s]
    ensures FindRoots(refs, sources, roots, black) == FindRoots(refs', sources, roots, black)
  {
    if sources != [] { FindRootsAgree(refs, refs', sources[..|sources| - 1], roots, black); }
  }

  lemma ScanStep(c: Config, before: seq<nat>, v: View, tables: HashTables, chunkSize: nat, stride: nat)
    requires chunkSize > 0 && stride > 0 && |tables| == stride && Refers(c, v, tables, chunkSize, stride)
    ensures FindRoots(RefsOf(v.start, v.data, v.on), SourcesIn(v), Roots(c.refs, before), Entities(before))
            == (Roots(c.refs, before + SourcesIn(v)), Entities(before + SourcesIn(v)))
  {
    hide Available, FindRoots, Roots, Entities, Sources;
    var refs := RefsOf(v.start, v.data, v.on);
    forall s | s in SourcesIn(v) ensures s in refs && s in c.refs && refs[s] == c.refs[s] {
      SourcesHave(v.start, v.on, BLOCK_SIZE, s);
      assert s - v.start in v.on;
      assert IsSource(v.start, v.on, s);
    }
    FindRootsAgree(refs, c.refs, SourcesIn(v), Roots(c.refs, before), Entities(before));
    FindRootsExact(c.refs, before, SourcesIn(v));
  }

  lemma RowStep(row: map<nat, Pointer>, row': map<nat, Pointer>, column: nat, c: Config, before: seq<nat>, v: View,
                tables: HashTables, chunkSize: nat, stride: nat)
    requires chunkSize > 0 && stride > 0 && |tables| == stride && Refers(c, v, tables, chunkSize, stride)
    requires RowHolds(row, column, c, before)
    requires FilledUpTo(row, row', column, v.start, v.data, v.on, tables, chunkSize, stride, BLOCK_SIZE)
    ensures RowHolds(row', column, c, before + SourcesIn(v))
  {
    hide Available, Sources;
    forall id: nat ensures id in row' <==> id in before + SourcesIn(v) && HasData(c, id)
      ensures id in row' && HasData(c, id) ==> row'[id] == Pointer(column, c.refs[id])
    {
      SourcesHave(v.start, v.on, BLOCK_SIZE, id);
      assert FilledAt(row, row', column, v.start, v.data, v.on, tables, chunkSize, stride, BLOCK_SIZE, id);
      if id in SourcesIn(v) { assert id - v.start in v.on; }
    }
  }

  /**
   * The first phase: block by block the roots, the blacklist and the temporary tables are filled. They end as the
   * protocol's first phase leaves them.
   */
  method ScanReferences(blocks: seq<SourceBlock>, ghost views: seq<View>, ghost c: Config, roots: BitTable, blacklist: BitTable,
                        temp: TempTables, tables: HashTables, chunkSize: nat, stride: nat)
    requires chunkSize > 0 && stride > 0 && |tables| == stride && Shown(blocks, views)
    requires forall i :: 0 <= i < |views| ==> Refers(c, views[i], tables, chunkSize, stride)
    requires roots.Valid() && blacklist.Valid() && Apart(roots, blacklist) && Away(blocks, roots) && Away(blocks, blacklist)
    requires temp !in roots.repr && temp !in blacklist.repr
    requires roots.ids == {} == blacklist.ids && forall col :: 0 <= col < |temp.rows| ==> temp.rows[col] == map[]
    modifies roots, roots.repr, blacklist, blacklist.repr, temp
    ensures roots.Valid() && blacklist.Valid() && |temp.rows| == |old(temp.rows)|
    ensures roots.ids == Roots(c.refs, SourcesOf(views)) && blacklist.ids == Entities(SourcesOf(views))
    ensures forall col :: 0 <= col < |temp.rows| ==> RowHolds(temp.rows[col], col, c, SourcesOf(views))
  {
    hide BitTable.Valid, Bitmap.Valid, Bitmap.Set, Refers, RowHolds, Roots, Entities, FindRoots, FilledUpTo, Sources, SourcesOf;
    NothingScanned(c, views, temp.rows);
    var i := 0;
    while i < |blocks|
      invariant 0 <= i <= |blocks| && Shown(blocks, views) && |temp.rows| == |old(temp.rows)|
      invariant roots.Valid() && blacklist.Valid() && Apart(roots, blacklist) && Away(blocks, roots) && Away(blocks, blacklist)
      invariant fresh(roots.repr - old(roots.repr)) && fresh(blacklist.repr - old(blacklist.repr))
      invariant temp !in roots.repr && temp !in blacklist.repr
      invariant roots.ids == Roots(c.refs, SourcesOf(views[..i])) && blacklist.ids == Entities(SourcesOf(views[..i]))
      invariant forall col :: 0 <= col < |temp.rows| ==> RowHolds(temp.rows[col], col, c, SourcesOf(views[..i]))
    {
      var b := blocks[i];
      ghost var v, before, was := views[i], SourcesOf(views[..i]), temp.rows;
      assert Shows(b, v);
      ScanStep(c, before, v, tables, chunkSize, stride);
      FindRootsAndBlacklist(b.start, b.data, b.enabled, roots, blacklist);
      assert Shown(blocks, views);
      assert Shows(b, v);
      temp.Gather(b.start, b.data, b.enabled, tables, chunkSize, stride);
      OneMoreBlock(views, i);
      forall col | 0 <= col < |temp.rows| ensures RowHolds(temp.rows[col], col, c, SourcesOf(views[..i + 1])) {
        RowStep(was[col], temp.rows[col], col, c, before, v, tables, chunkSize, stride);
      }
      i := i + 1;
    }
    assert views[..|blocks|] == views;
  }

  lemma NothingScanned(c: Config, views: seq<View>, rows: seq<map<nat, Pointer>>)
    requires forall col :: 0 <= col < |rows| ==> rows[col] == map[]
    ensures Roots(c.refs, SourcesOf(views[..0])) == {} == Entities(SourcesOf(views[..0]))
    ensures forall col :: 0 <= col < |rows| ==> RowHolds(rows[col], col, c, SourcesOf(views[..0]))
  {
    assert SourcesOf(views[..0]) == [];
  }

  lemma OneMoreBlock(views: seq<View>, i: nat)
    requires i < |views|
    ensures SourcesOf(views[..i + 1]) == SourcesOf(views[..i]) + SourcesIn(views[i])
  {
    assert views[..i + 1][..i] == views[..i];
  }

  // ---- a round

  ghost function ReachedIn(c: Config, sources: seq<nat>, blocks: set<nat>, frontier: set<nat>): set<nat> {
    set s | s in sources && Reached(c, s, blocks, frontier)
  }

  ghost function ReachedSlots(c: Config, v: View, blocks: set<nat>, frontier: set<nat>): set<nat> {
    set i | i in v.on && Reached(c, v.start + i, blocks, frontier)
  }

  /** No block comes twice. */
  ghost predicate Separate(views: seq<View>) {
    forall i, j :: 0 <= i < j < |views| ==> BlockOf(views[i].start) != BlockOf(views[j].start)
  }

  lemma InBlock(c: Config, v: View, tables: HashTables, chunkSize: nat, stride: nat, id: nat)
    requires chunkSize > 0 && stride > 0 && |tables| == stride && Refers(c, v, tables, chunkSize, stride)
    ensures id in SourcesIn(v) <==> v.start <= id && id - v.start in v.on
    ensures id in SourcesIn(v) ==> BlockOf(id) == BlockOf(v.start)
  {
    hide Available, Sources;
    SourcesHave(v.start, v.on, BLOCK_SIZE, id);
  }

  lemma {:induction false} SourceAt(views: seq<View>, id: nat) returns (i: nat)
    requires id in SourcesOf(views)
    ensures i < |views| && id in SourcesIn(views[i])
  {
    var n := |views| - 1;
    if id in SourcesIn(views[n]) { i := n; } else { i := SourceAt(views[..n], id); }
  }

  /** The temporary tables know exactly the blocks that the protocol records. */
  lemma TablesKnow(row: map<nat, Pointer>, column: nat, c: Config, sources: seq<nat>, block: nat)
    requires RowHolds(row, column, c, sources)
    ensures KnowsBlock(row, block) <==> block in BlocksOf(c, sources)
  {
    hide BlockOf;
    if id :| id in row && BlockOf(id) == block { assert id in sources && c.refs[id] in c.data; }
    if block in BlocksOf(c, sources) {
      var s :| s in sources && s in c.refs && c.refs[s] in c.data && BlockOf(s) == block;
      assert s in row;
    }
  }

  lemma RowsAligned(rows: seq<map<nat, Pointer>>, c: Config, sources: seq<nat>)
    requires forall col :: 0 <= col < |rows| ==> RowHolds(rows[col], col, c, sources)
    ensures Aligned(rows)
  {
    forall a, b, id {:trigger id in rows[a], id in rows[b]} | 0 <= a < |rows| && 0 <= b < |rows| && id in rows[a] ensures id in rows[b] {
      assert RowHolds(rows[a], a, c, sources) && RowHolds(rows[b], b, c, sources);
    }
  }

  lemma SlotsReached(c: Config, v: View, tables: HashTables, chunkSize: nat, stride: nat, blocks: set<nat>, frontier: set<nat>)
    requires chunkSize > 0 && stride > 0 && |tables| == stride && Refers(c, v, tables, chunkSize, stride)
    ensures ReachedSlots(c, v, blocks, frontier) == if BlockOf(v.start) in blocks then SlotsWith(v.data, v.on, frontier) else {}
    ensures forall id: nat :: id in ReachedIn(c, SourcesIn(v), blocks, frontier)
              <==> v.start <= id && id - v.start in ReachedSlots(c, v, blocks, frontier)
  {
    hide Available, Refers, BlockOf, SourcesIn;
    forall i: nat ensures i in ReachedSlots(c, v, blocks, frontier)
      <==> BlockOf(v.start) in blocks && i in SlotsWith(v.data, v.on, frontier)
    {
      InBlock(c, v, tables, chunkSize, stride, v.start + i);
      SlotRefers(c, v, tables, chunkSize, stride, i);
    }
    forall id: nat ensures id in ReachedIn(c, SourcesIn(v), blocks, frontier)
      <==> v.start <= id && id - v.start in ReachedSlots(c, v, blocks, frontier)
    {
      InBlock(c, v, tables, chunkSize, stride, id);
    }
  }

  lemma SlotRefers(c: Config, v: View, tables: HashTables, chunkSize: nat, stride: nat, i: nat)
    requires chunkSize > 0 && stride > 0 && |tables| == stride && Refers(c, v, tables, chunkSize, stride)
    ensures i in v.on ==> i < |v.data| && v.start + i in c.refs && c.refs[v.start + i] == v.data[i]
  {
    hide Available;
  }

  lemma ReachedAppend(c: Config, a: seq<nat>, b: seq<nat>, blocks: set<nat>, frontier: set<nat>)
    ensures ReachedIn(c, a + b, blocks, frontier) == ReachedIn(c, a, blocks, frontier) + ReachedIn(c, b, blocks, frontier)
    ensures ReachedIn(c, [], blocks, frontier) == {}
  {
    hide Reached;
  }

  /** A source of another block is not yet in the next frontier. */
  lemma NotYetReached(c: Config, views: seq<View>, i: nat, slot: nat, tables: HashTables, chunkSize: nat, stride: nat)
    requires chunkSize > 0 && stride > 0 && |tables| == stride && i < |views| && Separate(views) && slot in views[i].on
    requires forall j :: 0 <= j < |views| ==> Refers(c, views[j], tables, chunkSize, stride)
    ensures views[i].start + slot !in SourcesOf(views[..i])
  {
    hide Refers, SourcesIn, SourcesOf, BlockOf, Available;
    var id := views[i].start + slot;
    InBlock(c, views[i], tables, chunkSize, stride, id);
    if id in SourcesOf(views[..i]) {
      var j := SourceAt(views[..i], id);
      assert BlockOf(views[j].start) != BlockOf(views[i].start);
      InBlock(c, views[j], tables, chunkSize, stride, id);
    }
  }

  /** One block of a round: its cluster, and its share of the next frontier. */
  method RunBlock(b: SourceBlock, ghost v: View, ghost c: Config, ghost sources: seq<nat>, current: BitTable, next: BitTable,
                  temp: TempTables, ghost tables: HashTables, ghost chunkSize: nat, ghost stride: nat)
    returns (cluster: Bitmap)
    requires chunkSize > 0 && stride > 0 && |tables| == stride && Shows(b, v) && Refers(c, v, tables, chunkSize, stride)
    requires current.Valid() && next.Valid() && Apart(next, current) && Outside(b.enabled, next) && temp !in next.repr
    requires |temp.rows| > 0 && forall col :: 0 <= col < |temp.rows| ==> RowHolds(temp.rows[col], col, c, sources)
    requires forall i :: i in v.on ==> v.start + i !in next.ids
    modifies next, next.repr
    ensures next.Valid() && fresh(next.repr - old(next.repr)) && fresh(cluster) && fresh(cluster.data) && cluster.Valid()
    ensures cluster !in next.repr && cluster.data !in next.repr
    ensures cluster.Set() == ReachedSlots(c, v, BlocksOf(c, sources), current.ids)
    ensures next.ids == old(next.ids) + ReachedIn(c, SourcesIn(v), BlocksOf(c, sources), current.ids)
  {
    hide BitTable.Valid, Bitmap.Valid, Bitmap.Set, Refers, RowHolds, Sources, SlotsWith, BlockOf, BlocksOf, KnowsBlock, Aligned,
      ReachedSlots, ReachedIn;
    cluster := new Bitmap(BLOCK_SIZE);
    RowsAligned(temp.rows, c, sources);
    TablesKnow(temp.rows[0], 0, c, sources, BlockOf(v.start));
    SlotsReached(c, v, tables, chunkSize, stride, BlocksOf(c, sources), current.ids);
    var columns := BuildClusterFromRefs(b.start, b.data, b.enabled, current, next, cluster, temp);
    assert columns == 0 || columns == |temp.rows|;
  }

  /**
   * A round: the next frontier is cleared and filled block by block. It ends with exactly the thread's sources that the
   * protocol reaches in this round, and the clusters hold exactly those.
   */
  method RunRound(blocks: seq<SourceBlock>, ghost views: seq<View>, ghost c: Config, current: BitTable, next: BitTable,
                  temp: TempTables, ghost tables: HashTables, ghost chunkSize: nat, ghost stride: nat)
    returns (clusters: seq<Bitmap>)
    requires chunkSize > 0 && stride > 0 && |tables| == stride && Shown(blocks, views) && Separate(views)
    requires forall i :: 0 <= i < |views| ==> Refers(c, views[i], tables, chunkSize, stride)
    requires current.Valid() && next.Valid() && Apart(next, current) && Away(blocks, next) && temp !in next.repr
    requires |temp.rows| > 0 && forall col :: 0 <= col < |temp.rows| ==> RowHolds(temp.rows[col], col, c, SourcesOf(views))
    modifies next, next.repr
    ensures next.Valid() && next.ids == ReachedIn(c, SourcesOf(views), BlocksOf(c, SourcesOf(views)), current.ids)
    ensures |clusters| == |blocks|
    ensures forall i :: 0 <= i < |clusters| ==>
              clusters[i].Set() == ReachedSlots(c, views[i], BlocksOf(c, SourcesOf(views)), current.ids)
  {
    hide BitTable.Valid, Bitmap.Valid, Bitmap.Set, Refers, RowHolds, SourcesIn, SourcesOf, BlocksOf, ReachedSlots, ReachedIn, Separate;
    ghost var sources, known, frontier := SourcesOf(views), BlocksOf(c, SourcesOf(views)), current.ids;
    NothingReached(c, views, known, frontier);
    next.Clear();
    clusters := [];
    var i := 0;
    while i < |blocks|
      invariant 0 <= i <= |blocks| == |views| && |clusters| == i && Shown(blocks, views)
      invariant current.Valid() && current.ids == frontier && next.Valid() && Apart(next, current) && Away(blocks, next)
      invariant fresh(next.repr - old(next.repr)) && temp !in next.repr && temp.rows == old(temp.rows)
      invariant next.ids == ReachedIn(c, SourcesOf(views[..i]), known, frontier)
      invariant forall j :: 0 <= j < i ==> fresh(clusters[j]) && fresh(clusters[j].data)
                                           && clusters[j] !in next.repr && clusters[j].data !in next.repr
                                           && clusters[j].Set() == ReachedSlots(c, views[j], known, frontier)
    {
      forall slot | slot in views[i].on ensures views[i].start + slot !in next.ids {
        NotYetReached(c, views, i, slot, tables, chunkSize, stride);
        OnlySources(c, SourcesOf(views[..i]), known, frontier);
      }
      OneMoreBlock(views, i);
      ReachedAppend(c, SourcesOf(views[..i]), SourcesIn(views[i]), known, frontier);
      assert Shows(blocks[i], views[i]);
      var cluster := RunBlock(blocks[i], views[i], c, sources, current, next, temp, tables, chunkSize, stride);
      clusters := clusters + [cluster];
      i := i + 1;
    }
    assert views[..|blocks|] == views;
  }

  lemma NothingReached(c: Config, views: seq<View>, blocks: set<nat>, frontier: set<nat>)
    ensures ReachedIn(c, SourcesOf(views[..0]), blocks, frontier) == {}
  {
  }

  lemma OnlySources(c: Config, sources: seq<nat>, blocks: set<nat>, frontier: set<nat>)
    ensures forall id :: id in ReachedIn(c, sources, blocks, frontier) ==> id in sources
  {
  }

  /** What these phases leave in the tables is what the protocol's invariant says of a thread that owns the blocks. */
  lemma PhasesMatch(c: Config, t: nat, views: seq<View>, k: nat)
    requires Partition(c) && t < |c.own| && SourcesOf(views) == c.own[t]
    ensures Roots(c.refs, SourcesOf(views)) == Next(c, t, 1, 0) && Entities(SourcesOf(views)) == Black(c, t, 1, 0)
    ensures BlocksOf(c, SourcesOf(views)) == Blocks(c, t, 3 + 2 * k, 0)
    ensures ReachedIn(c, SourcesOf(views), BlocksOf(c, SourcesOf(views)), Current(c, t, 3 + 2 * k, 0)) == Next(c, t, 4 + 2 * k, 0)
  {
    hide Partition, Reached, Level, Roots, Entities, BlocksOf, Looked, BlockOf, SourcesOf;
    var sources, known, frontier := c.own[t], BlocksOf(c, c.own[t]), Level(c.refs, Looked(c), k);
    assert Round(3 + 2 * k) == k == Round(4 + 2 * k);
    forall s | s in sources ensures Reached(c, s, known, frontier) <==> s in Level(c.refs, Looked(c), k + 1) {
      var i :| 0 <= i < |sources| && sources[i] == s;
      OwnLooked(c, t, i);
      ReachedIsNextRound(c, s, known, k);
    }
    assert sources[..|sources|] == sources;
    assert ReachedIn(c, sources, known, frontier) == Share(c, t, |sources|, k + 1);
  }
}
