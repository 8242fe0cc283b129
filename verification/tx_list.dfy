/** The transaction manager in memory: transactions linked into a doubly linked list. */
module TxList {
  import TM = TxManager

  class Node {
    var id: nat
    var version: nat
    var orv: nat
    var kind: TM.Kind
    var next: Node?
    var prev: Node?

    constructor () {
      id, version, orv, kind, next, prev := 0, 0, 0, TM.ReadOnly, null, null;
    }

    function Value(): TM.Tx
      reads this`id, this`version, this`orv, this`kind
    {
      TM.Tx(id, version, orv, kind)
    }
  }

  ghost function Values(list: seq<Node>): (r: seq<TM.Tx>)
    reads list`id, list`version, list`orv, list`kind
    ensures |r| == |list| && forall i :: 0 <= i < |list| ==> r[i] == list[i].Value()
  {
    if list == [] then [] else Values(list[..|list| - 1]) + [list[|list| - 1].Value()]
  }

  lemma WithOneMore(was: seq<Node>, list: seq<Node>, tx: Node, running: seq<TM.Tx>)
    requires |was| == |running| && list == was + [tx] && forall k :: 0 <= k < |was| ==> was[k].Value() == running[k]
    ensures Values(list) == running + [tx.Value()]
  {
    hide Values;
  }

  lemma WithoutOne(was: seq<Node>, list: seq<Node>, i: nat, running: seq<TM.Tx>)
    requires i < |was| == |running| && list == was[..i] + was[i + 1..]
    requires forall k :: 0 <= k < |was| ==> was[k].Value() == running[k]
    ensures Values(list) == running[..i] + running[i + 1..]
  {
    hide Values;
    assert forall k :: 0 <= k < |list| ==> list[k] == was[if k < i then k else k + 1];
  }

  class Transactions {
    var first: Node?
    var last: Node?
    var nextId: nat
    var lastCommitted: nat
    ghost var list: seq<Node>

    ghost predicate Linked()
      reads this`first, this`last, this`list, list`next, list`prev
    {
      && (forall i, j :: 0 <= i < j < |list| ==> list[i] != list[j])
      && (if list == [] then first == null && last == null
          else first == list[0] && last == list[|list| - 1] && list[0].prev == null && list[|list| - 1].next == null)
      && (forall i, j :: 0 <= i < |list| && 0 <= j < |list| && j == i + 1 ==>
            list[i].next == list[j] && list[j].prev == list[i])
    }

    ghost function Value(): TM.Manager
      reads this`nextId, this`lastCommitted, this`list, list`id, list`version, list`orv, list`kind
    {
      TM.Manager(nextId, lastCommitted, Values(list))
    }

    ghost predicate Valid()
      reads this, list
    {
      Linked() && TM.Inv(Value())
    }

    constructor ()
      ensures Valid() && Value() == TM.INITIAL && list == []
    {
      first, last, nextId, lastCommitted := null, null, 1, 0;
      list := [];
    }

    method Append(tx: Node)
      requires Linked() && tx !in list && tx.next == null && tx.prev == null
      modifies this`first, this`last, this`list, list`next, tx`prev
      ensures Linked() && list == old(list) + [tx]
    {
      if first == null {
        first, last := tx, tx;
      } else {
        last.next := tx;
        tx.prev := last;
        last := tx;
      }
      list := list + [tx];
    }

    method Unlink(tx: Node, ghost i: nat)
      requires Linked() && i < |list| && list[i] == tx
      modifies this`first, this`last, this`list, list`next, list`prev
      ensures Linked() && list == old(list)[..i] + old(list)[i + 1..]
      ensures tx.next == null && tx.prev == null
    {
      ghost var was := list;
      assert if i > 0 then tx.prev == was[i - 1] else tx.prev == null;
      assert if i + 1 < |was| then tx.next == was[i + 1] else tx.next == null;
      if tx.prev != null { tx.prev.next := tx.next; }
      if tx.next != null { tx.next.prev := tx.prev; }
      if first == tx { first := tx.next; }
      if last == tx { last := tx.prev; }
      tx.next, tx.prev := null, null;
      list := list[..i] + list[i + 1..];
      assert forall k :: 0 <= k < i ==> list[k] == was[k];
      assert forall k :: i <= k < |list| ==> list[k] == was[k + 1];
    }

    lemma First()
      requires Linked()
      ensures first == if list == [] then null else list[0]
    {
    }

    method Begin(tx: Node, kind: TM.Kind)
      requires Valid() && tx !in list && TM.CanBegin(Value(), kind)
      modifies this, list, tx
      ensures Valid() && list == old(list) + [tx] && Value() == TM.Begin(old(Value()), kind)
      ensures tx.Value() == TM.NewTx(old(Value()), kind)
    {
      hide TM.Inv, Values, Linked;
      ghost var m := Value();
      TM.BeginKeepsInv(m, kind);
      Assign(tx, kind);
      ghost var was := list;
      Append(tx);
      WithOneMore(was, list, tx, m.running);
    }

    /** The identifier, version and bound of a new transaction that is not in the list yet. */
    method Assign(tx: Node, kind: TM.Kind)
      requires Linked() && tx !in list
      modifies this`nextId, tx
      ensures Linked() && nextId == old(nextId) + 1 && tx.next == null && tx.prev == null
      ensures tx.Value() == TM.NewTx(old(Value()), kind)
    {
      hide Values, Linked;
      First();
      tx.id, tx.version, tx.kind, tx.next, tx.prev := nextId, lastCommitted, kind, null, null;
      nextId := nextId + 1;
      if tx.kind == TM.ReadWrite { tx.version := tx.id; }
      tx.orv := if first == null then lastCommitted else first.version;
    }

    method Commit(tx: Node, ghost i: nat)
      requires Valid() && i < |list| && list[i] == tx
      modifies this, list
      ensures Valid() && list == old(list)[..i] + old(list)[i + 1..]
      ensures Value() == TM.Commit(old(Value()), i)
      ensures tx.next == null && tx.prev == null
    {
      hide TM.Inv, Values;
      ghost var m := Value();
      TM.CommitKeepsInv(m, i);
      ghost var was := list;
      Unlink(tx, i);
      WithoutOne(was, list, i, m.running);
      if tx.kind == TM.ReadWrite && tx.id > lastCommitted { lastCommitted := tx.id; }
    }

    method OldestRunning() returns (version: nat)
      requires Valid()
      ensures version == TM.OldestRunning(Value())
      ensures TM.SafeBound(Value(), version) <==> (list == [] || list[0].kind == TM.ReadOnly)
      ensures list == [] || list[0].kind == TM.ReadOnly ==> forall b: nat :: TM.SafeBound(Value(), b) <==> b <= version
      ensures list != [] && list[0].kind == TM.ReadWrite ==> version == list[0].id
    {
      version := lastCommitted;
      if first != null { version := first.version; }
      TM.OldestRunningExact(Value());
      TM.OldestRunningGreatest(Value());
    }
  }
}
