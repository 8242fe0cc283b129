/** Block clusters: columns of one block of entities, with the slots enabled in all of them. */
module BlockClusters {
  import opened Options
  import opened Bitmaps

  const BLOCK_BITS: nat := 256
  const MAX_COLUMNS: nat := 16

  /** A column: the address of a table block, or of a global. */
  type Column = nat

  class BlockCluster {
    /** The first id of the block; none before the first block is appended. */
    var start: Option<nat>
    var columns: seq<Column>
    const enabled: Bitmap
    const global: Bitmap

    ghost predicate Valid()
      reads this, enabled, enabled.data, global, global.data
    {
      && enabled.Valid() && global.Valid() && enabled.maxBits == BLOCK_BITS && global.maxBits == MAX_COLUMNS
      && enabled != global && enabled.data != global.data && |columns| <= MAX_COLUMNS
      && forall i :: i in global.Set() ==> i < |columns|
    }

    constructor ()
      ensures Valid() && start == None && columns == [] && enabled.Set() == {} && global.Set() == {}
      ensures fresh(enabled) && fresh(enabled.data) && fresh(global) && fresh(global.data)
    {
      start, columns := None, [];
      enabled := new Bitmap(BLOCK_BITS);
      global := new Bitmap(MAX_COLUMNS);
    }

    /** The first block sets the enabled slots, every further one narrows them. */
    method AppendBlock(block: Column, blockStart: nat, blockEnabled: Bitmap)
      requires Valid() && |columns| < MAX_COLUMNS && (start.None? || start == Some(blockStart))
      requires blockEnabled.Valid() && blockEnabled.maxBits == BLOCK_BITS
      requires blockEnabled.data != enabled.data && blockEnabled.data != global.data && blockEnabled != enabled
      modifies this, enabled`numSet, enabled.data
      ensures Valid() && start == Some(blockStart) && columns == old(columns) + [block]
      ensures enabled.Set() == if old(start).None? then blockEnabled.Set() else old(enabled.Set()) * blockEnabled.Set()
      ensures global.Set() == old(global.Set())
    {
      hide Bitmap.Set, Members, Has;
      if start.None? {
        start := Some(blockStart);
        enabled.SetBitmap(blockEnabled);
      }
      columns := columns + [block];
      enabled.And(blockEnabled);
    }

    method AppendGlobal(address: Column)
      requires Valid() && |columns| < MAX_COLUMNS
      modifies this`columns, global`numSet, global.data
      ensures Valid() && columns == old(columns) + [address] && global.Set() == old(global.Set()) + {|old(columns)|}
      ensures enabled.Set() == old(enabled.Set())
    {
      hide Bitmap.Set, Members, Has;
      global.SetElement(|columns|);
      columns := columns + [address];
    }

    ghost predicate Apart(other: BlockCluster)
      reads this, other
    {
      && this != other && enabled != other.enabled && enabled.data != other.enabled.data && enabled.data != other.global.data
      && global != other.enabled && global != other.global && global.data != other.global.data && global.data != other.enabled.data
      && enabled != other.global
    }

    /** Takes over the columns of `other`; a cluster of globals alone narrows nothing. */
    method AppendCluster(other: BlockCluster)
      requires Valid() && other.Valid() && Apart(other) && |columns| + |other.columns| <= MAX_COLUMNS
      requires start == other.start || start.None? || other.start.None?
      modifies this, enabled`numSet, enabled.data, global`numSet, global.data
      ensures Valid() && columns == old(columns) + other.columns && start == (if other.start.Some? then other.start else old(start))
      ensures enabled.Set() == if other.start.None? then old(enabled.Set())
                               else if old(start).None? then other.enabled.Set() else old(enabled.Set()) * other.enabled.Set()
      ensures forall i :: i in global.Set() <==>
                i in old(global.Set()) || (i >= |old(columns)| && i - |old(columns)| in other.global.Set())
    {
      hide Bitmap.Set, Members, Has;
      if other.start.Some? {
        if start.None? {
          enabled.SetBitmap(other.enabled);
        } else {
          enabled.And(other.enabled);
        }
        start := other.start;
      }
      AppendColumns(other);
    }

    method AppendColumns(other: BlockCluster)
      requires Valid() && other.Valid() && Apart(other) && |columns| + |other.columns| <= MAX_COLUMNS
      modifies this`columns, global`numSet, global.data
      ensures Valid() && columns == old(columns) + other.columns && enabled.Set() == old(enabled.Set())
      ensures forall i :: i in global.Set() <==>
                i in old(global.Set()) || (i >= |old(columns)| && i - |old(columns)| in other.global.Set())
    {
      hide Bitmap.Set, Members, Has;
      ghost var before, n := global.Set(), |columns|;
      var i := 0;
      while i < |other.columns|
        invariant 0 <= i <= |other.columns| && Valid() && other.Valid() && enabled.Set() == old(enabled.Set())
        invariant columns == old(columns) + other.columns[..i] && other.global.Set() == old(other.global.Set())
        invariant forall j :: j in global.Set() <==> j in before || (n <= j < n + i && j - n in other.global.Set())
      {
        var isGlobal := other.global.IsSet(i);
        columns := columns + [other.columns[i]];
        if isGlobal { global.SetElement(|columns| - 1); }
        i := i + 1;
      }
    }

    /** Keeps the slots enabled in `other`; its columns are not taken over. */
    method Filter(other: BlockCluster)
      requires Valid() && other.Valid() && Apart(other)
      modifies enabled`numSet, enabled.data
      ensures Valid() && enabled.Set() == old(enabled.Set()) * other.enabled.Set() && global.Set() == old(global.Set())
    {
      hide Bitmap.Set, Members, Has;
      enabled.And(other.enabled);
    }
  }

  /** What the join does with the build side's cluster and a cluster of the same block. */
  method JoinClusters(build: BlockCluster, source: BlockCluster) returns (joined: BlockCluster)
    requires build.Valid() && source.Valid() && build.start.Some? && source.start == build.start
    requires |build.columns| + |source.columns| <= MAX_COLUMNS
    ensures joined.Valid() && joined.start == build.start && joined.columns == build.columns + source.columns
    ensures joined.enabled.Set() == build.enabled.Set() * source.enabled.Set()
  {
    hide Bitmap.Set, Members, Has;
    joined := new BlockCluster();
    joined.AppendCluster(build);
    joined.AppendCluster(source);
  }

  /** What the filtering join does: the build side's columns, narrowed to the source's slots. */
  method FilterClusters(build: BlockCluster, source: BlockCluster) returns (filtered: BlockCluster)
    requires build.Valid() && source.Valid() && build.start.Some?
    ensures filtered.Valid() && filtered.start == build.start && filtered.columns == build.columns
    ensures filtered.enabled.Set() == build.enabled.Set() * source.enabled.Set()
  {
    hide Bitmap.Set, Members, Has;
    filtered := new BlockCluster();
    filtered.AppendCluster(build);
    filtered.Filter(source);
  }
}
