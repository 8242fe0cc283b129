/** The temporary tables of the plan's gather are those that the loops over a block of references fill. */
module GatherLink {
  import opened TableIters
  import opened QueryExec
  import opened QueryMeaning
  import DU = DataUtils
  import BT = BitTables

  /** The temporary table of one column holds, for every slot of `temp`, the component of its target. */
  ghost predicate Shows(row: map<nat, DU.Pointer>, temp: seq<RefBlock>, column: nat) {
    forall id: nat {:trigger RefTarget(temp, id)} {:trigger id in row} ::
      && (id in row <==> RefTarget(temp, id).Some?)
      && (id in row && RefTarget(temp, id).Some? ==> row[id] == DU.Pointer(column, RefTarget(temp, id).value))
  }

  /** The hash tables of the threads hold the threads' clusters. */
  ghost predicate SameTables(tables: DU.HashTables, shares: seq<seq<Cluster>>, p: Part) {
    && |tables| == |shares| == p.stride
    && forall u, b: nat {:trigger b in tables[u]} {:trigger Lookup(shares[u], b)} :: 0 <= u < |tables| ==>
         && (b in tables[u] <==> Lookup(shares[u], b).Some?)
         && (b in tables[u] && Lookup(shares[u], b).Some? ==> tables[u][b] == Lookup(shares[u], b).value.enabled)
  }

  lemma AvailableIsThere(tables: DU.HashTables, shares: seq<seq<Cluster>>, p: Part, target: nat)
    requires PartOk(p) && SameTables(tables, shares, p)
    ensures DU.Available(tables, p.chunkSize, p.stride, target) <==> TargetThere(shares, p, target)
  {
    var u := BlockOffset(target / BLOCK, p.chunkSize, p.stride);
    assert target / BLOCK in tables[u] <==> Lookup(shares[u], target / BLOCK).Some?;
  }

  lemma SizesOf(tables: DU.HashTables, shares: seq<seq<Cluster>>, p: Part)
    requires SameTables(tables, shares, p)
    ensures |tables| == p.stride
  {
  }

  /** A cluster of references as the loops see it: its block's slots with their targets. */
  ghost predicate SameRefs(c: Cluster, data: seq<nat>) {
    && |data| == BLOCK
    && forall i :: i in c.enabled ==> i < BLOCK && i in TargetsOf(c) && TargetsOf(c)[i] == data[i]
  }

  lemma PlaceOf(block: nat, id: nat)
    ensures BLOCK * block <= id < BLOCK * block + BLOCK <==> id / BLOCK == block
    ensures id / BLOCK == block ==> id - BLOCK * block == id % BLOCK
  {
  }

  lemma GatheredIsFound(c: Cluster, data: seq<nat>, tables: DU.HashTables, shares: seq<seq<Cluster>>, p: Part, id: nat)
    requires PartOk(p) && SameTables(tables, shares, p) && SameRefs(c, data)
    ensures DU.Gathered(BLOCK * c.block, data, c.enabled, tables, p.chunkSize, p.stride, BT.BLOCK_SIZE, id)
            <==> id / BLOCK == c.block && id % BLOCK in Found(shares, p, c)
    ensures id / BLOCK == c.block && id % BLOCK in Found(shares, p, c) ==>
              id - BLOCK * c.block == id % BLOCK && Found(shares, p, c)[id % BLOCK] == data[id % BLOCK]
  {
    hide SameTables, DU.Available, TargetThere;
    PlaceOf(c.block, id);
    if id / BLOCK == c.block { AvailableIsThere(tables, shares, p, data[id % BLOCK]); }
  }

  /** Gathering one cluster of references turns tables that show `temp` into tables that show the filled one. */
  lemma GatherIsFill(row: map<nat, DU.Pointer>, row': map<nat, DU.Pointer>, column: nat, temp: seq<RefBlock>, c: Cluster,
                     data: seq<nat>, tables: DU.HashTables, shares: seq<seq<Cluster>>, p: Part)
    requires PartOk(p) && SameTables(tables, shares, p) && SameRefs(c, data) && Ascends(temp) && Shows(row, temp, column)
    requires DU.FilledUpTo(row, row', column, BLOCK * c.block, data, c.enabled, tables, p.chunkSize, p.stride, BT.BLOCK_SIZE)
    ensures Ascends(Fill(shares, p, temp, c)) && Shows(row', Fill(shares, p, temp, c), column)
  {
    hide SameTables, SameRefs, Found, DU.Gathered, RefTarget, Ascends;
    var filled, found := Fill(shares, p, temp, c), Found(shares, p, c);
    PutBits(temp, c.block, found, 0);
    forall id: nat {:trigger RefTarget(filled, id)} {:trigger id in row'}
      ensures id in row' <==> RefTarget(filled, id).Some?
      ensures id in row' && RefTarget(filled, id).Some? ==> row'[id] == DU.Pointer(column, RefTarget(filled, id).value)
    {
      GatheredIsFound(c, data, tables, shares, p, id);
      PutBits(temp, c.block, found, id / BLOCK);
      RefTargetBits(temp, id);
      RefTargetBits(filled, id);
      assert |tables| == p.stride by { SizesOf(tables, shares, p); }
      assert DU.FilledAt(row, row', column, BLOCK * c.block, data, c.enabled, tables, p.chunkSize, p.stride, BT.BLOCK_SIZE, id);
      assert id in row <==> RefTarget(temp, id).Some?;
    }
  }
}
