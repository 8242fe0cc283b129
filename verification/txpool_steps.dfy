/** The steps of the pool protocol. `Ready` is when control reaches a step and the caller's
    obligations hold; `Defined` collects the memory accesses and assertions of the code; when they
    hold is what `TxPoolTheorems.NoFault` proves. */
module TxPoolSteps {
  import opened Options
  import opened TxManager
  import opened TxPoolState

  datatype Label =
    | LBegin(kind: Kind)
    | LCommit(index: nat)
    | LAlloc(writer: Tx, root: Addr, block: Addr, ptr: Addr, bytes: Bytes)
    | LStart(op: Op, root: Addr, orv: nat)
    | LFreeOne
    | LCopy(spare: Addr)
    | LStamp
    | LUnlink
    | LSkip
    | LReclaim
    | LFinish(block: Addr, ptr: Addr)
    | LStore(writer: Tx, root: Addr, bytes: Bytes)
    | LWalk(tx: Tx, root: Addr)
    | LTest(tx: Tx)
    | LFollow(tx: Tx)
    | LLoad(tx: Tx)

  // ---- accesses

  /** The `next` pointers of the blocks spell out the chain. */
  ghost predicate Linked(s: State, r: Addr) {
    var chain := ChainAt(s, r);
    && r in s.blocks && s.blocks[r].next == HeadOf(chain)
    && forall i :: 0 <= i < |chain| ==>
         && chain[i] in s.blocks
         && s.blocks[chain[i]].next == Following(chain, i)
  }

  predicate Newest(s: State, r: Addr, ts: nat) {
    var chain := ChainAt(s, r);
    chain != [] && chain[0] in s.blocks && s.blocks[chain[0]].ts == ts
  }

  /** A single version, committed before everything running: it can move into the root. */
  predicate CanConsolidate(s: State, r: Addr, orv: nat) {
    var chain := ChainAt(s, r);
    |chain| == 1 && chain[0] in s.blocks && s.blocks[chain[0]].ts <= orv
  }

  predicate CanReclaim(s: State, r: Addr, orv: nat)
    requires r in s.blocks
  {
    s.blocks[r].data.None? && s.blocks[r].next.None? && s.blocks[r].ts < orv
  }

  /** The block a writer's walk stops at. */
  ghost function Candidate(s: State, r: Addr, v: nat): Addr
    requires Linked(s, r)
  {
    Source(s, r, CutFrom(s, ChainAt(s, r), v, 0))
  }

  /** The caller's side of a call: a running writer on a reference that is not freed, and for
      a release a root that has data; or a garbage entry. */
  ghost predicate CallOk(s: State, op: Op, root: Addr, orv: nat) {
    match op
    case Deref(w, _) => WriterTx(s, w) && orv == w.orv && root in s.refs && |s.refs[root].hist| > 0
                        && s.refs[root].hist[0].value.Some?
    case Release(w) => WriterTx(s, w) && orv == w.orv && root in s.refs && |s.refs[root].hist| > 0
                       && s.refs[root].hist[0].value.Some?
                       && root in s.blocks && s.blocks[root].data.Some?
    case Collect => root in s.garbage && SafeBound(s.mgr, orv)
  }

  ghost predicate Ready(s: State, l: Label) {
    match l
    case LBegin(kind) => CanBegin(s.mgr, kind)
    case LCommit(i) => i < |s.mgr.running| && s.mgr.running[i] !in s.walks
                       && (s.mgr.running[i].kind.ReadWrite? ==> !WriterBusy(s))
    case LAlloc(w, root, block, ptr, _) =>
      s.mutator.Idle? && WriterTx(s, w) && root != block
      && root !in s.blocks && block !in s.blocks && ptr !in s.data
    case LStart(op, root, orv) => s.mutator.Idle? && CallOk(s, op, root, orv)
    case LFreeOne => s.mutator.Freeing? && s.mutator.cursor.Some?
    case LCopy(spare) => s.mutator.Freeing? && s.mutator.cursor.None? && spare !in s.data
                         && CanConsolidate(s, s.mutator.root, s.mutator.orv)
    case LStamp => s.mutator.Copied?
    case LUnlink => s.mutator.Stamped?
    case LSkip => s.mutator.Freeing? && s.mutator.cursor.None?
                  && !CanConsolidate(s, s.mutator.root, s.mutator.orv)
    case LReclaim => s.mutator.Trimmed?
    case LFinish(block, ptr) => s.mutator.Collected? && block !in s.blocks && ptr !in s.data
    case LStore(w, root, _) => WriterTx(s, w) && !WriterBusy(s) && root in s.refs && |s.refs[root].hist| > 0
                               && s.refs[root].hist[0].value.Some? && Newest(s, root, w.id)
    case LWalk(t, root) => ReaderTx(s, t) && t !in s.walks && root in s.refs
                           && |s.refs[root].hist| > 0 && Live(s.refs[root].hist, t.version)
    case LTest(t) => t in s.walks && s.walks[t].cursor.At?
    case LFollow(t) => t in s.walks && s.walks[t].cursor.TooNew?
    case LLoad(t) => t in s.walks && s.walks[t].cursor.Chosen?
  }

  ghost predicate Defined(s: State, l: Label)
    requires Ready(s, l)
  {
    match l
    case LStart(op, root, orv) => Linked(s, root)
    case LFreeOne => Readable(s, s.mutator.cursor.value)
    case LCopy(_) =>
      var r := s.mutator.root;
      && r in s.refs && Linked(s, r) && Readable(s, r) && Readable(s, s.refs[r].chain[0])
      && (s.blocks[s.refs[r].chain[0]].data.None? ==> s.blocks[r].data.Some?)
    case LStamp | LUnlink =>
      var r := s.mutator.root;
      r in s.refs && Linked(s, r) && CanConsolidate(s, r, s.mutator.orv)
    case LReclaim => s.mutator.root in s.blocks
    case LFinish(_, _) => FinishDefined(s, s.mutator.op, s.mutator.root, s.mutator.orv)
    case LStore(_, root, _) =>
      Readable(s, s.refs[root].chain[0]) && s.blocks[s.refs[root].chain[0]].data.Some?
    case LWalk(_, root) => root in s.blocks
    case LTest(t) => s.walks[t].cursor.p.Some? ==> s.walks[t].cursor.p.value in s.blocks
    case LFollow(t) => s.walks[t].cursor.a in s.blocks
    case LLoad(t) => Readable(s, s.walks[t].cursor.c) && s.blocks[s.walks[t].cursor.c].ts <= t.version
                     && s.blocks[s.walks[t].cursor.c].data.Some?
    case _ => true
  }

  /** The assertions of a dereference and of a release, and that the reference still exists. */
  ghost predicate FinishDefined(s: State, op: Op, root: Addr, orv: nat) {
    && root in s.refs && Linked(s, root) && |s.refs[root].hist| > 0
    && match op
       case Deref(w, write) =>
         var c := Candidate(s, root, w.version);
         && Readable(s, c) && s.blocks[c].ts <= w.version && s.blocks[c].data.Some?
         && (write && s.blocks[c].ts < w.version ==> c == Source(s, root, 0))
       case Release(w) =>
         var c := Source(s, root, 0);
         && Readable(s, c) && s.blocks[c].ts <= w.version && s.blocks[c].data.Some?
         && (s.blocks[c].ts <= orv || s.blocks[c].ts == w.version)
       case Collect => false
  }

  /** When the assertion on the newest version that ends a release holds: the version is
      either older than everything running or the releasing writer's own. */
  ghost predicate ReleaseAllowed(s: State, l: Label) {
    l.LFinish? && s.mutator.Collected? && s.mutator.op.Release? ==>
      && s.mutator.root in s.refs && |s.refs[s.mutator.root].hist| > 0
      && var ts := s.refs[s.mutator.root].hist[0].ts;
         ts <= s.mutator.orv || ts == s.mutator.op.writer.id
  }

  // ---- effects

  function DoBegin(s: State, kind: Kind): State {
    s.(mgr := Begin(s.mgr, kind), seen := s.seen[NewTx(s.mgr, kind) := s.committed])
  }

  function DoCommit(s: State, i: nat): State
    requires i < |s.mgr.running|
  {
    var tx := s.mgr.running[i];
    s.(mgr := Commit(s.mgr, i),
       committed := if tx.kind.ReadWrite? then s.committed + {tx.id} else s.committed,
       held := set h | h in s.held && h.tx != tx)
  }

  function DoAlloc(s: State, w: Tx, root: Addr, block: Addr, ptr: Addr, bytes: Bytes): State {
    s.(blocks := s.blocks[root := Block(0, None, Some(block))][block := Block(w.version, Some(ptr), None)],
       data := s.data[ptr := bytes],
       refs := s.refs[root := Ref([Version(w.version, Some(bytes)), Version(0, None)], [block], 0)],
       role := s.role[root := RootOf][block := ChainOf(root)],
       owner := s.owner[ptr := block])
  }

  function Retag(role: map<Addr, Role>, rest: seq<Addr>): (m: map<Addr, Role>)
    ensures m.Keys == role.Keys && forall a :: a in m ==> m[a] == if a in rest then Doomed else role[a]
  {
    map a | a in role :: if a in rest then Doomed else role[a]
  }

  /** The first loop of the collection found position `k`; the store there cuts the chain. */
  function CutAt(s: State, op: Op, root: Addr, orv: nat, k: nat): State
    requires k < |ChainAt(s, root)| && ChainAt(s, root)[k] in s.blocks && root in s.refs
  {
    var R := s.refs[root];
    var rest := R.chain[k + 1..];
    s.(blocks := s.blocks[R.chain[k] := s.blocks[R.chain[k]].(next := None)],
       mutator := Freeing(op, root, orv, HeadOf(rest)),
       refs := s.refs[root := Ref(R.hist, R.chain[..k + 1], Larger(R.floor, orv))],
       role := Retag(s.role, rest),
       doomed := rest)
  }

  function Larger(a: nat, b: nat): nat {
    if a < b then b else a
  }

  ghost function DoStart(s: State, op: Op, root: Addr, orv: nat): State
    requires Linked(s, root)
  {
    var k := CutFrom(s, ChainAt(s, root), orv, 0);
    if k < |ChainAt(s, root)| then CutAt(s, op, root, orv, k)
    else
      s.(mutator := Freeing(op, root, orv, None), doomed := [],
         refs := if root in s.refs then s.refs[root := s.refs[root].(floor := Larger(s.refs[root].floor, orv))] else s.refs)
  }

  function DoFreeOne(s: State): State
    requires s.mutator.Freeing? && s.mutator.cursor.Some? && Readable(s, s.mutator.cursor.value)
  {
    var a := s.mutator.cursor.value;
    var b := s.blocks[a];
    var gone: set<Addr> := if b.data.Some? then {b.data.value} else {};
    s.(blocks := s.blocks - {a},
       data := s.data - gone,
       owner := s.owner - gone,
       role := s.role - {a},
       mutator := s.mutator.(cursor := b.next),
       doomed := if s.doomed == [] then [] else s.doomed[1..])
  }

  function DoCopy(s: State, spare: Addr): State
    requires s.mutator.Freeing? && CanConsolidate(s, s.mutator.root, s.mutator.orv)
    requires s.mutator.root in s.refs && Readable(s, s.mutator.root) && Readable(s, s.refs[s.mutator.root].chain[0])
  {
    var r := s.mutator.root;
    var b := s.blocks[r];
    var y := s.blocks[s.refs[r].chain[0]];
    var s1 := s.(mutator := Copied(s.mutator.op, r, s.mutator.orv));
    if y.data.Some? then
      var p := if b.data.Some? then b.data.value else spare;
      s1.(blocks := s.blocks[r := b.(data := Some(p))],
          data := s.data[p := s.data[y.data.value]],
          owner := s.owner[p := r])
    else
      var gone: set<Addr> := if b.data.Some? then {b.data.value} else {};
      s1.(blocks := s.blocks[r := b.(data := None)], data := s.data - gone, owner := s.owner - gone)
  }

  function DoStamp(s: State): State
    requires s.mutator.Copied? && s.mutator.root in s.blocks
    requires CanConsolidate(s, s.mutator.root, s.mutator.orv)
  {
    var r := s.mutator.root;
    s.(blocks := s.blocks[r := s.blocks[r].(ts := s.blocks[ChainAt(s, r)[0]].ts)],
       mutator := Stamped(s.mutator.op, r, s.mutator.orv))
  }

  function DoUnlink(s: State): State
    requires s.mutator.Stamped? && s.mutator.root in s.blocks && s.mutator.root in s.refs
    requires CanConsolidate(s, s.mutator.root, s.mutator.orv)
  {
    var r := s.mutator.root;
    var y := s.refs[r].chain[0];
    s.(blocks := s.blocks[r := s.blocks[r].(next := None)],
       mutator := Trimmed(s.mutator.op, r, s.mutator.orv),
       garbage := s.garbage + {y},
       refs := s.refs[r := s.refs[r].(chain := [])],
       role := s.role[y := Zombie])
  }

  function DoSkip(s: State): State
    requires s.mutator.Freeing?
  {
    s.(mutator := Trimmed(s.mutator.op, s.mutator.root, s.mutator.orv))
  }

  /** The last test of the collection; a context collection then drops the entry. */
  function DoReclaim(s: State): State
    requires s.mutator.Trimmed? && s.mutator.root in s.blocks
  {
    var r, op := s.mutator.root, s.mutator.op;
    var s1 := s.(mutator := if op.Collect? then Idle else Collected(op, r, s.mutator.orv));
    if CanReclaim(s, r, s.mutator.orv) then
      s1.(blocks := s.blocks - {r}, role := s.role - {r}, refs := s.refs - {r},
          garbage := if op.Collect? then s.garbage - {r} else s.garbage)
    else s1
  }

  /** Put `b` in front of what is left of the chain. */
  function Push(s: State, root: Addr, a: Addr, b: Block, rest: seq<Addr>, v: Version): State
    requires root in s.blocks && root in s.refs
  {
    var R := s.refs[root];
    s.(blocks := s.blocks[a := b][root := s.blocks[root].(next := Some(a))],
       refs := s.refs[root := R.(chain := [a] + rest, hist := [v] + R.hist)],
       role := s.role[a := ChainOf(root)])
  }

  ghost function DoDeref(s: State, w: Tx, write: bool, block: Addr, ptr: Addr): State
    requires s.mutator.Collected?
    requires FinishDefined(s, Deref(w, write), s.mutator.root, s.mutator.orv)
  {
    var r := s.mutator.root;
    var c := Candidate(s, r, w.version);
    var s1 := s.(mutator := Idle);
    if write && s.blocks[c].ts < w.version then
      var bytes := s.data[s.blocks[c].data.value];
      var rest := if c == r then [] else s.refs[r].chain;
      Push(s1, r, block, Block(w.version, Some(ptr), HeadOf(rest)), rest, Version(w.version, Some(bytes)))
        .(data := s.data[ptr := bytes], owner := s.owner[ptr := block])
    else s1
  }

  ghost function DoRelease(s: State, w: Tx, block: Addr): State
    requires s.mutator.Collected?
    requires FinishDefined(s, Release(w), s.mutator.root, s.mutator.orv)
  {
    var r := s.mutator.root;
    var c := Source(s, r, 0);
    var s1 := s.(mutator := Idle, garbage := s.garbage + {r});
    var R := s.refs[r];
    if s.blocks[c].ts <= s.mutator.orv then
      var rest := if c == r || R.chain == [] then [] else R.chain[1..];   // the newest version would be lost
      Push(s1, r, block, Block(w.version, None, HeadOf(rest)), rest, Version(w.version, None))
    else
      var p := s.blocks[c].data.value;
      s1.(blocks := s.blocks[c := s.blocks[c].(data := None)], data := s.data - {p}, owner := s.owner - {p},
          refs := s.refs[r := R.(hist := [Version(R.hist[0].ts, None)] + R.hist[1..])])
  }

  function DoStore(s: State, root: Addr, bytes: Bytes): State
    requires root in s.refs && |s.refs[root].hist| > 0 && s.refs[root].chain != []
    requires s.refs[root].chain[0] in s.blocks && s.blocks[s.refs[root].chain[0]].data.Some?
  {
    var R := s.refs[root];
    s.(data := s.data[s.blocks[R.chain[0]].data.value := bytes],
       refs := s.refs[root := R.(hist := [Version(R.hist[0].ts, Some(bytes))] + R.hist[1..])])
  }

  function DoTest(s: State, t: Tx): State
    requires t in s.walks && s.walks[t].cursor.At?
    requires s.walks[t].cursor.p.Some? ==> s.walks[t].cursor.p.value in s.blocks
  {
    var k := s.walks[t];
    var next := if k.cursor.p.None? then Chosen(k.root)
                else if s.blocks[k.cursor.p.value].ts > t.version then TooNew(k.cursor.p.value)
                else Chosen(k.cursor.p.value);
    s.(walks := s.walks[t := k.(cursor := next)])
  }

  ghost function Apply(s: State, l: Label): State
    requires Ready(s, l) && Defined(s, l)
  {
    match l
    case LBegin(kind) => DoBegin(s, kind)
    case LCommit(i) => DoCommit(s, i)
    case LAlloc(w, root, block, ptr, bytes) => DoAlloc(s, w, root, block, ptr, bytes)
    case LStart(op, root, orv) => DoStart(s, op, root, orv)
    case LFreeOne => DoFreeOne(s)
    case LCopy(spare) => DoCopy(s, spare)
    case LStamp => DoStamp(s)
    case LUnlink => DoUnlink(s)
    case LSkip => DoSkip(s)
    case LReclaim => DoReclaim(s)
    case LFinish(block, ptr) =>
      (match s.mutator.op
       case Deref(w, write) => DoDeref(s, w, write, block, ptr)
       case Release(w) => DoRelease(s, w, block)
       case Collect => s)
    case LStore(_, root, bytes) => DoStore(s, root, bytes)
    case LWalk(t, root) => s.(walks := s.walks[t := Walk(root, At(s.blocks[root].next))])
    case LTest(t) => DoTest(s, t)
    case LFollow(t) => s.(walks := s.walks[t := s.walks[t].(cursor := At(s.blocks[s.walks[t].cursor.a].next))])
    case LLoad(t) =>
      var k := s.walks[t];
      s.(walks := s.walks - {t},
         held := s.held + {Held(t, k.root, k.cursor.c, s.blocks[k.cursor.c].data.value)})
  }
}
