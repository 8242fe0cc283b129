/** The transaction manager: transaction versions, the list of running
    transactions in begin order, and the version below which garbage may go. */
module TxManager {

  datatype Kind = ReadOnly | ReadWrite

  datatype Tx = Tx(id: nat, version: nat, orv: nat, kind: Kind)

  /** `running` is the list from `p_first` to `p_last`. */
  datatype Manager = Manager(nextId: nat, lastCommitted: nat, running: seq<Tx>)

  const INITIAL: Manager := Manager(1, 0, [])

  predicate WriterRunning(m: Manager) {
    exists i :: 0 <= i < |m.running| && m.running[i].kind.ReadWrite?
  }

  /** The write mutex: a second writer waits. */
  predicate CanBegin(m: Manager, kind: Kind) {
    kind.ReadWrite? ==> !WriterRunning(m)
  }

  function NewTx(m: Manager, kind: Kind): Tx {
    Tx(m.nextId,
       if kind.ReadWrite? then m.nextId else m.lastCommitted,
       if m.running == [] then m.lastCommitted else m.running[0].version,
       kind)
  }

  function Begin(m: Manager, kind: Kind): Manager {
    Manager(m.nextId + 1, m.lastCommitted, m.running + [NewTx(m, kind)])
  }

  function Commit(m: Manager, i: nat): Manager
    requires i < |m.running|
  {
    var tx := m.running[i];
    Manager(m.nextId,
            if tx.kind.ReadWrite? && tx.id > m.lastCommitted then tx.id else m.lastCommitted,
            m.running[..i] + m.running[i + 1..])
  }

  /** The version that a garbage collection of a thread context starts from. */
  function OldestRunning(m: Manager): nat {
    if m.running == [] then m.lastCommitted else m.running[0].version
  }

  // ---- what every run keeps

  ghost predicate TxOk(m: Manager, tx: Tx) {
    && 1 <= tx.id < m.nextId
    && (tx.kind.ReadOnly? ==> tx.version <= m.lastCommitted && tx.version < tx.id)
    && (tx.kind.ReadWrite? ==> tx.version == tx.id > m.lastCommitted)
  }

  ghost predicate PairOk(a: Tx, b: Tx) {
    && a.id < b.id
    && (a.kind.ReadOnly? || b.kind.ReadOnly?)
    && (a.kind.ReadOnly? && b.kind.ReadOnly? ==> a.version <= b.version)
  }

  /** No running transaction is older than `b`. */
  ghost predicate LowerBound(m: Manager, b: nat) {
    forall i :: 0 <= i < |m.running| ==> b <= m.running[i].version
  }

  /** `b` also bounds what a reader that begins now would see. */
  ghost predicate SafeBound(m: Manager, b: nat) {
    b <= m.lastCommitted && LowerBound(m, b)
  }

  ghost predicate Inv(m: Manager) {
    && m.lastCommitted < m.nextId
    && (forall i :: 0 <= i < |m.running| ==> TxOk(m, m.running[i]))
    && (forall i, j :: 0 <= i < j < |m.running| ==> PairOk(m.running[i], m.running[j]))
    && (forall i :: 0 <= i < |m.running| && m.running[i].kind.ReadWrite? ==> SafeBound(m, m.running[i].orv))
  }

  lemma BeginKeepsBound(m: Manager, kind: Kind, b: nat)
    requires Inv(m) && CanBegin(m, kind) && SafeBound(m, b)
    ensures SafeBound(Begin(m, kind), b)
  {
    var m' := Begin(m, kind);
    forall i | 0 <= i < |m'.running| ensures b <= m'.running[i].version {
      if i < |m.running| { assert m'.running[i] == m.running[i]; }
    }
  }

  lemma CommitKeepsBound(m: Manager, i: nat, b: nat)
    requires Inv(m) && i < |m.running| && SafeBound(m, b)
    ensures SafeBound(Commit(m, i), b)
  {
    var m' := Commit(m, i);
    forall k | 0 <= k < |m'.running| ensures b <= m'.running[k].version {
      assert m'.running[k] == m.running[if k < i then k else k + 1];
    }
  }

  /** A list that is empty or starts with a reader gives a bound that holds now and later;
      a list that starts with a writer never does. */
  lemma OldestRunningExact(m: Manager)
    requires Inv(m)
    ensures SafeBound(m, OldestRunning(m)) <==> (m.running == [] || m.running[0].kind.ReadOnly?)
  {
    if m.running != [] && m.running[0].kind.ReadOnly? {
      var b := m.running[0].version;
      assert TxOk(m, m.running[0]);
      forall i | 0 <= i < |m.running| ensures b <= m.running[i].version {
        assert TxOk(m, m.running[i]);
        if i > 0 { assert PairOk(m.running[0], m.running[i]); }
      }
    } else if m.running != [] {
      assert TxOk(m, m.running[0]);
    }
  }

  /** When it is a bound at all it is the greatest one, so a collection that starts from it leaves nothing behind that
      could go; when a writer heads the list it is that writer's own version. */
  lemma OldestRunningGreatest(m: Manager)
    requires Inv(m)
    ensures m.running == [] || m.running[0].kind.ReadOnly? ==> forall b: nat :: SafeBound(m, b) <==> b <= OldestRunning(m)
    ensures m.running != [] && m.running[0].kind.ReadWrite? ==> OldestRunning(m) == m.running[0].id > m.lastCommitted
  {
    OldestRunningExact(m);
    if m.running != [] { assert TxOk(m, m.running[0]); }
  }

  /** The bound a writer is given when it begins is the greatest one. */
  lemma WriterBoundGreatest(m: Manager)
    requires Inv(m) && CanBegin(m, ReadWrite)
    ensures forall b: nat :: SafeBound(m, b) <==> b <= NewTx(m, ReadWrite).orv
  {
    OldestRunningGreatest(m);
  }

  /** Restricted to the transactions running at this instant, the value is a bound
      exactly when the oldest transaction is a reader or runs alone. */
  lemma OldestRunningNowExact(m: Manager)
    requires Inv(m) && m.running != []
    ensures LowerBound(m, OldestRunning(m)) <==> (m.running[0].kind.ReadOnly? || |m.running| == 1)
  {
    OldestRunningExact(m);
    if m.running[0].kind.ReadWrite? && |m.running| > 1 {
      assert PairOk(m.running[0], m.running[1]);
      assert TxOk(m, m.running[0]) && TxOk(m, m.running[1]);
      assert m.running[1].version < m.running[0].version;
    }
  }

  lemma BeginKeepsInv(m: Manager, kind: Kind)
    requires Inv(m) && CanBegin(m, kind)
    ensures Inv(Begin(m, kind))
  {
    var m', n := Begin(m, kind), |m.running|;
    forall i | 0 <= i < n ensures TxOk(m', m'.running[i]) && PairOk(m'.running[i], m'.running[n]) {
      assert TxOk(m, m.running[i]);
    }
    forall i, j | 0 <= i < j < |m'.running| ensures PairOk(m'.running[i], m'.running[j]) {
      if j < n { assert PairOk(m.running[i], m.running[j]); }
    }
    forall i | 0 <= i < |m'.running| && m'.running[i].kind.ReadWrite? ensures SafeBound(m', m'.running[i].orv) {
      if i < n {
        BeginKeepsBound(m, kind, m.running[i].orv);
      } else {
        assert forall k :: 0 <= k < n ==> m.running[k].kind.ReadOnly?;
        OldestRunningExact(m);
        BeginKeepsBound(m, kind, OldestRunning(m));
      }
    }
  }

  lemma CommitKeepsInv(m: Manager, i: nat)
    requires Inv(m) && i < |m.running|
    ensures Inv(Commit(m, i))
  {
    var m' := Commit(m, i);
    assert TxOk(m, m.running[i]);
    forall k | 0 <= k < |m'.running|
      ensures TxOk(m', m'.running[k]) && (m'.running[k].kind.ReadWrite? ==> SafeBound(m', m'.running[k].orv))
    {
      var o := if k < i then k else k + 1;
      assert m'.running[k] == m.running[o] && TxOk(m, m.running[o]);
      assert if o < i then PairOk(m.running[o], m.running[i]) else PairOk(m.running[i], m.running[o]);
      if m.running[o].kind.ReadWrite? { CommitKeepsBound(m, i, m.running[o].orv); }
    }
    forall j, k | 0 <= j < k < |m'.running| ensures PairOk(m'.running[j], m'.running[k]) {
      assert PairOk(m.running[if j < i then j else j + 1], m.running[if k < i then k else k + 1]);
    }
  }

  // ---- runs

  datatype Event = EBegin(kind: Kind) | ECommit(index: nat)

  predicate Enabled(m: Manager, e: Event) {
    match e
    case EBegin(kind) => CanBegin(m, kind)
    case ECommit(i) => i < |m.running|
  }

  function Step(m: Manager, e: Event): Manager
    requires Enabled(m, e)
  {
    match e
    case EBegin(kind) => Begin(m, kind)
    case ECommit(i) => Commit(m, i)
  }

  ghost predicate ValidRun(m: Manager, es: seq<Event>)
    decreases es
  {
    es == [] || (Enabled(m, es[0]) && ValidRun(Step(m, es[0]), es[1..]))
  }

  ghost function Run(m: Manager, es: seq<Event>): Manager
    requires ValidRun(m, es)
    decreases es
  {
    if es == [] then m else Run(Step(m, es[0]), es[1..])
  }

  function Begins(es: seq<Event>): nat {
    if es == [] then 0 else (if es[0].EBegin? then 1 else 0) + Begins(es[1..])
  }

  /** Ids are given out one after the other, with no gap. */
  lemma {:induction false} IdsCount(m: Manager, es: seq<Event>)
    requires ValidRun(m, es)
    ensures Run(m, es).nextId == m.nextId + Begins(es)
    decreases es
  {
    if es != [] { IdsCount(Step(m, es[0]), es[1..]); }
  }

  lemma {:induction false} RunKeepsInv(m: Manager, es: seq<Event>)
    requires Inv(m) && ValidRun(m, es)
    ensures Inv(Run(m, es))
    decreases es
  {
    if es != [] {
      match es[0] {
        case EBegin(kind) => BeginKeepsInv(m, kind);
        case ECommit(i) => CommitKeepsInv(m, i);
      }
      RunKeepsInv(Step(m, es[0]), es[1..]);
    }
  }

  lemma {:induction false} RunKeepsBound(m: Manager, es: seq<Event>, b: nat)
    requires Inv(m) && ValidRun(m, es) && SafeBound(m, b)
    ensures SafeBound(Run(m, es), b)
    decreases es
  {
    if es != [] {
      match es[0] {
        case EBegin(kind) => BeginKeepsInv(m, kind); BeginKeepsBound(m, kind, b);
        case ECommit(i) => CommitKeepsInv(m, i); CommitKeepsBound(m, i, b);
      }
      RunKeepsBound(Step(m, es[0]), es[1..], b);
    }
  }

  /** Every state reached from the initial one is well formed; in it the bound a running writer
      works with is at most the version of every transaction running in any continuation. */
  lemma WriterBoundHoldsForever(es: seq<Event>, i: nat, more: seq<Event>)
    requires ValidRun(INITIAL, es)
    requires i < |Run(INITIAL, es).running| && Run(INITIAL, es).running[i].kind.ReadWrite?
    requires ValidRun(Run(INITIAL, es), more)
    ensures LowerBound(Run(Run(INITIAL, es), more), Run(INITIAL, es).running[i].orv)
  {
    RunKeepsInv(INITIAL, es);
    RunKeepsBound(Run(INITIAL, es), more, Run(INITIAL, es).running[i].orv);
  }

  /** `SafeBound` is exactly "below every version, in every continuation". */
  lemma SafeBoundMeaning(m: Manager, b: nat)
    requires Inv(m)
    ensures SafeBound(m, b) <==> forall es :: ValidRun(m, es) ==> LowerBound(Run(m, es), b)
  {
    if SafeBound(m, b) {
      forall es | ValidRun(m, es) ensures LowerBound(Run(m, es), b) { RunKeepsBound(m, es, b); }
    } else {
      var es := if LowerBound(m, b) then [EBegin(ReadOnly)] else [];
      if es != [] {
        assert es[1..] == [];
        assert ValidRun(Step(m, es[0]), es[1..]);
        var m' := Begin(m, ReadOnly);
        assert Run(m, es) == m' && m'.running[|m.running|].version == m.lastCommitted < b;
      }
      assert ValidRun(m, es) && !LowerBound(Run(m, es), b);
    }
  }

  /** The value a context collection uses stays a bound in every continuation
      if and only if no writer heads the list. */
  lemma OldestRunningForever(m: Manager)
    requires Inv(m)
    ensures (forall es :: ValidRun(m, es) ==> LowerBound(Run(m, es), OldestRunning(m)))
       <==> (m.running == [] || m.running[0].kind.ReadOnly?)
  {
    OldestRunningExact(m);
    SafeBoundMeaning(m, OldestRunning(m));
  }

  /** A run in which that value is not a bound: a writer begins, then a reader. */
  lemma OldestRunningFailure()
    ensures var es := [EBegin(ReadWrite), EBegin(ReadOnly)];
      && ValidRun(INITIAL, es)
      && OldestRunning(Run(INITIAL, es)) == 1
      && Run(INITIAL, es).running[1].version == 0
  {
    var es := [EBegin(ReadWrite), EBegin(ReadOnly)];
    var m1 := Begin(INITIAL, ReadWrite);
    assert es[1..] == [EBegin(ReadOnly)] && es[1..][1..] == [];
    assert ValidRun(Begin(m1, ReadOnly), []);
    assert ValidRun(m1, es[1..]);
  }
}
