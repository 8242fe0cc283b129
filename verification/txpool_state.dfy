/** The transactional pool as a protocol: one mutating call at a time, any number of
    readers, every shared store and every load of a reader's chain walk a step of its own. */
module TxPoolState {
  import opened Options
  import opened TxManager

  datatype Addr = Addr(id: nat)
  type Bytes = seq<bv8>

  datatype Block = Block(ts: nat, data: Option<Addr>, next: Option<Addr>)

  /** One abstract version of a reference; `None` marks "not allocated" and "freed". */
  datatype Version = Version(ts: nat, value: Option<Bytes>)

  /** What a block of memory is used for. */
  datatype Role = RootOf | ChainOf(root: Addr) | Zombie | Doomed

  /** Bookkeeping of one reference: all versions ever written, newest first, the blocks
      reachable from its root, and a version no running transaction is older than. */
  datatype Ref = Ref(hist: seq<Version>, chain: seq<Addr>, floor: nat)

  datatype Op = Deref(writer: Tx, write: bool) | Release(writer: Tx) | Collect

  /** The program counter of the mutating call in progress. */
  datatype Mutator =
    | Idle
    | Freeing(op: Op, root: Addr, orv: nat, cursor: Option<Addr>)
    | Copied(op: Op, root: Addr, orv: nat)
    | Stamped(op: Op, root: Addr, orv: nat)
    | Trimmed(op: Op, root: Addr, orv: nat)
    | Collected(op: Op, root: Addr, orv: nat)

  /** The candidate pointer of a reader: just loaded, found too new, or chosen. */
  datatype Cursor = At(p: Option<Addr>) | TooNew(a: Addr) | Chosen(c: Addr)

  datatype Walk = Walk(root: Addr, cursor: Cursor)

  /** A data pointer handed to a running reader, and the block it was taken from. */
  datatype Held = Held(tx: Tx, root: Addr, block: Addr, ptr: Addr)

  datatype State = State(
    mgr: Manager,
    blocks: map<Addr, Block>,
    data: map<Addr, Bytes>,
    garbage: set<Addr>,
    mutator: Mutator,
    walks: map<Tx, Walk>,
    // bookkeeping the code does not have
    refs: map<Addr, Ref>,
    role: map<Addr, Role>,
    owner: map<Addr, Addr>,
    doomed: seq<Addr>,
    held: set<Held>,
    committed: set<nat>,
    seen: map<Tx, set<nat>>)

  const INITIAL_STATE: State :=
    State(INITIAL, map[], map[], {}, Idle, map[], map[], map[], map[], [], {}, {}, map[])

  // ---- abstract versions

  /** The newest version no newer than `v`. */
  function VersionAt(hist: seq<Version>, v: nat): Version
    requires |hist| > 0
  {
    if hist[0].ts <= v || |hist| == 1 then hist[0] else VersionAt(hist[1..], v)
  }

  /** The newest version written by a member of `writers` (0 stands for the allocation). */
  function NewestBy(hist: seq<Version>, writers: set<nat>): Version
    requires |hist| > 0
  {
    if hist[0].ts in writers || |hist| == 1 then hist[0] else NewestBy(hist[1..], writers)
  }

  predicate Live(hist: seq<Version>, v: nat)
    requires |hist| > 0
  {
    VersionAt(hist, v).value.Some?
  }

  // ---- reading memory

  function HeadOf(chain: seq<Addr>): Option<Addr> {
    if chain == [] then None else Some(chain[0])
  }

  function Following(chain: seq<Addr>, i: nat): Option<Addr> {
    if i + 1 < |chain| then Some(chain[i + 1]) else None
  }

  function ChainAt(s: State, r: Addr): seq<Addr> {
    if r in s.refs then s.refs[r].chain else []
  }

  predicate Readable(s: State, a: Addr) {
    a in s.blocks && (s.blocks[a].data.Some? ==> s.blocks[a].data.value in s.data)
  }

  function Content(s: State, a: Addr): Version
    requires Readable(s, a)
  {
    Version(s.blocks[a].ts,
            if s.blocks[a].data.Some? then Some(s.data[s.blocks[a].data.value]) else None)
  }

  /** Position `i` is where a walk with version `v` stops; `|chain|` means at the root. */
  ghost predicate StopsAt(s: State, r: Addr, v: nat, i: nat) {
    var chain := ChainAt(s, r);
    && i <= |chain|
    && (forall j :: 0 <= j < i ==> chain[j] in s.blocks && s.blocks[chain[j]].ts > v)
    && (i < |chain| ==> chain[i] in s.blocks && s.blocks[chain[i]].ts <= v)
  }

  function Source(s: State, r: Addr, i: nat): Addr {
    if i < |ChainAt(s, r)| then ChainAt(s, r)[i] else r
  }

  /** The first position of the chain whose version is at most `orv`. */
  function CutFrom(s: State, chain: seq<Addr>, orv: nat, i: nat): (k: nat)
    requires i <= |chain|
    requires forall j :: 0 <= j < |chain| ==> chain[j] in s.blocks
    ensures i <= k <= |chain|
    ensures forall j :: i <= j < k ==> s.blocks[chain[j]].ts > orv
    ensures k < |chain| ==> s.blocks[chain[k]].ts <= orv
    decreases |chain| - i
  {
    if i == |chain| || s.blocks[chain[i]].ts <= orv then i else CutFrom(s, chain, orv, i + 1)
  }

  predicate WriterTx(s: State, w: Tx) {
    w in s.mgr.running && w.kind.ReadWrite?
  }

  predicate ReaderTx(s: State, t: Tx) {
    t in s.mgr.running && t.kind.ReadOnly?
  }

  /** Inside a call of a writer. */
  predicate WriterBusy(s: State) {
    !s.mutator.Idle? && !s.mutator.op.Collect?
  }
}
