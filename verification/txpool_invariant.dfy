/** What every reachable state of the pool protocol satisfies. */
module TxPoolInvariant {
  import opened Options
  import TM = TxManager
  import opened TxPoolState
  import opened TxPoolSteps

  // ---- one reference

  /** Versions carry the number of a transaction that wrote them; 0 is the allocation. */
  ghost predicate Written(s: State, ts: nat) {
    ts == 0 || ts in s.committed || exists w :: w in s.mgr.running && w.kind.ReadWrite? && w.id == ts
  }

  ghost predicate HistOk(s: State, hist: seq<Version>) {
    && |hist| > 0 && hist[|hist| - 1].ts == 0
    && (forall i, j :: 0 <= i < j < |hist| ==> hist[i].ts > hist[j].ts)
    && (forall i :: 0 <= i < |hist| ==> Written(s, hist[i].ts))
  }

  ghost predicate Decreasing(s: State, chain: seq<Addr>) {
    && (forall i :: 0 <= i < |chain| ==> chain[i] in s.blocks)
    && (forall i, j :: 0 <= i < j < |chain| ==> s.blocks[chain[i]].ts > s.blocks[chain[j]].ts)
  }

  ghost predicate RefOk(s: State, r: Addr)
    requires r in s.refs
  {
    var R := s.refs[r];
    && Linked(s, r) && r in s.role && s.role[r] == RootOf
    && (forall i :: 0 <= i < |R.chain| ==> R.chain[i] in s.role && s.role[R.chain[i]] == ChainOf(r))
    && Decreasing(s, R.chain)
    && HistOk(s, R.hist)
    && TM.SafeBound(s.mgr, R.floor) && s.blocks[r].ts <= R.floor
  }

  ghost predicate FaithfulAt(s: State, r: Addr, v: nat, i: nat)
    requires r in s.refs && |s.refs[r].hist| > 0
  {
    StopsAt(s, r, v, i) ==>
      Readable(s, Source(s, r, i)) && Content(s, Source(s, r, i)) == VersionAt(s.refs[r].hist, v)
  }

  /** Wherever a running or future transaction's walk stops, the block there holds the
      version its snapshot shows. */
  ghost predicate Faithful(s: State, r: Addr)
    requires r in s.refs
  {
    var R := s.refs[r];
    |R.hist| > 0 && forall v: nat, i: nat :: R.floor <= v ==> FaithfulAt(s, r, v, i)
  }

  /** The root's fields are being overwritten by a consolidation. */
  predicate Consolidating(s: State, r: Addr) {
    (s.mutator.Copied? || s.mutator.Stamped?) && s.mutator.root == r
  }

  /** Only the newest version can be a tombstone, and then the root still has data. */
  ghost predicate TombOk(s: State, r: Addr)
    requires r in s.refs
  {
    var chain := s.refs[r].chain;
    && r in s.blocks && (forall i :: 0 <= i < |chain| ==> chain[i] in s.blocks)
    && (forall i :: 1 <= i < |chain| ==> s.blocks[chain[i]].data.Some?)
    && (chain != [] && !Consolidating(s, r) ==>
          && s.blocks[r].ts < s.blocks[chain[|chain| - 1]].ts
          && (s.blocks[chain[0]].data.None? ==> s.blocks[r].data.Some?))
    && (r in s.garbage ==> |s.refs[r].hist| > 0 && s.refs[r].hist[0].value.None?)
  }

  // ---- memory

  ghost predicate RoleOk(s: State, a: Addr)
    requires a in s.role
  {
    a in s.blocks &&
    match s.role[a]
    case RootOf => a in s.refs
    case ChainOf(r) => r in s.refs && a in s.refs[r].chain
    case Zombie => s.blocks[a].next.None? && a in s.garbage
    case Doomed => a in s.doomed
  }

  ghost predicate PoolOk(s: State) {
    && s.role.Keys == s.blocks.Keys
    && (forall a :: a in s.role ==> RoleOk(s, a))
    && (forall a :: a in s.garbage ==> a in s.role && (s.role[a].RootOf? || s.role[a].Zombie?))
  }

  ghost predicate DataOk(s: State) {
    && (forall a :: a in s.blocks && s.blocks[a].data.Some? ==>
          var p := s.blocks[a].data.value; p in s.data && p in s.owner && s.owner[p] == a)
    && (forall p :: p in s.data ==>
          p in s.owner && s.owner[p] in s.blocks && s.blocks[s.owner[p]].data == Some(p))
  }

  ghost predicate DoomedOk(s: State) {
    var d := s.doomed;
    && Decreasing(s, d)
    && (forall i :: 0 <= i < |d| ==>
          && d[i] in s.role && s.role[d[i]] == Doomed
          && s.blocks[d[i]].next == Following(d, i))
    && (if s.mutator.Freeing? then s.mutator.cursor == HeadOf(d) else d == [])
  }

  // ---- the mutating call

  ghost predicate CallInProgress(s: State, op: Op, root: Addr, orv: nat) {
    && root in s.role && TM.SafeBound(s.mgr, orv)
    && (op.Collect? ==> root in s.garbage)
    && (!op.Collect? ==>
          && WriterTx(s, op.writer) && orv == op.writer.orv && root in s.refs
          && |s.refs[root].hist| > 0 && s.refs[root].hist[0].value.Some?)
    && (op.Release? ==> root in s.blocks && s.blocks[root].data.Some?)
    && (root in s.refs ==> orv <= s.refs[root].floor)
  }

  ghost predicate CutDone(s: State, r: Addr, orv: nat) {
    var chain := ChainAt(s, r);
    forall i :: 0 <= i < |chain| - 1 ==> chain[i] in s.blocks && s.blocks[chain[i]].ts > orv
  }

  ghost predicate NewestAbove(s: State, r: Addr, orv: nat) {
    var chain := ChainAt(s, r);
    chain != [] ==> chain[0] in s.blocks && s.blocks[chain[0]].ts > orv
  }

  ghost predicate CopyDone(s: State, r: Addr, orv: nat) {
    && r in s.refs && CanConsolidate(s, r, orv)
    && Readable(s, r) && Readable(s, s.refs[r].chain[0])
    && Content(s, r).value == Content(s, s.refs[r].chain[0]).value
  }

  ghost predicate MutatorOk(s: State) {
    match s.mutator
    case Idle => true
    case Freeing(op, r, orv, _) => CallInProgress(s, op, r, orv) && CutDone(s, r, orv)
    case Copied(op, r, orv) => CallInProgress(s, op, r, orv) && CopyDone(s, r, orv)
    case Stamped(op, r, orv) => CallInProgress(s, op, r, orv) && CopyDone(s, r, orv)
                                && s.blocks[r].ts == s.blocks[s.refs[r].chain[0]].ts
    case Trimmed(op, r, orv) => CallInProgress(s, op, r, orv) && NewestAbove(s, r, orv)
    case Collected(op, r, orv) => CallInProgress(s, op, r, orv) && NewestAbove(s, r, orv) && !op.Collect?
  }

  // ---- readers

  /** Block `c` was the stop of a walk with version `v` until it was consolidated away. */
  ghost predicate Parked(s: State, r: Addr, v: nat, c: Addr)
    requires r in s.refs && |s.refs[r].hist| > 0
  {
    && c in s.role && s.role[c] == Zombie && Readable(s, c) && s.blocks[c].ts <= v
    && Content(s, c) == VersionAt(s.refs[r].hist, v)
  }

  /** Block `c` is where version `v` of `r` is to be read: the walk's stop, or a
      block parked for walks that got there earlier. */
  ghost predicate Good(s: State, r: Addr, v: nat, c: Addr)
    requires r in s.refs && |s.refs[r].hist| > 0
  {
    || (exists i: nat :: StopsAt(s, r, v, i) && c == Source(s, r, i))
    || Parked(s, r, v, c)
  }

  /** All versions of the chain up to position `i` are newer than `v`. */
  ghost predicate Passed(s: State, r: Addr, v: nat, i: int) {
    var chain := ChainAt(s, r);
    i < |chain| && forall j :: 0 <= j <= i ==> chain[j] in s.blocks && s.blocks[chain[j]].ts > v
  }

  ghost predicate CursorOk(s: State, r: Addr, v: nat, c: Cursor)
    requires r in s.refs && |s.refs[r].hist| > 0
  {
    match c
    case At(None) => Passed(s, r, v, |s.refs[r].chain| - 1)
    case At(Some(a)) =>
      || (exists i :: 0 <= i < |s.refs[r].chain| && s.refs[r].chain[i] == a && Passed(s, r, v, i - 1))
      || Parked(s, r, v, a)
    case TooNew(a) => exists i :: 0 <= i < |s.refs[r].chain| && s.refs[r].chain[i] == a && Passed(s, r, v, i)
    case Chosen(c) => Good(s, r, v, c)
  }

  ghost predicate LiveFor(s: State, t: TM.Tx, r: Addr) {
    ReaderTx(s, t) && r in s.refs && |s.refs[r].hist| > 0 && Live(s.refs[r].hist, t.version)
  }

  ghost predicate WalkOk(s: State, t: TM.Tx)
    requires t in s.walks
  {
    LiveFor(s, t, s.walks[t].root) && CursorOk(s, s.walks[t].root, t.version, s.walks[t].cursor)
  }

  ghost predicate HeldOk(s: State, h: Held) {
    && LiveFor(s, h.tx, h.root) && Good(s, h.root, h.tx.version, h.block)
    && h.block in s.blocks && s.blocks[h.block].data == Some(h.ptr)
  }

  ghost predicate ReadersOk(s: State) {
    && (forall t :: t in s.walks ==> WalkOk(s, t))
    && (forall h :: h in s.held ==> HeldOk(s, h))
  }

  ghost predicate SeenOk(s: State) {
    && (forall w :: w in s.committed ==> 1 <= w <= s.mgr.lastCommitted)
    && (forall t :: ReaderTx(s, t) ==>
          t in s.seen && s.seen[t] <= s.committed
          && forall w :: w in s.committed ==> (w in s.seen[t] <==> w <= t.version))
  }

  ghost predicate RefsOk(s: State) {
    forall r :: r in s.refs ==> RefOk(s, r) && Faithful(s, r) && TombOk(s, r)
  }

  ghost predicate Inv(s: State) {
    && TM.Inv(s.mgr) && SeenOk(s)
    && PoolOk(s) && DataOk(s) && DoomedOk(s)
    && RefsOk(s)
    && MutatorOk(s)
    && ReadersOk(s)
  }
}
