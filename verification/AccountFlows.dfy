/**
 One account's flow through the pool (core/account_flow.go): what it spends in total, and its
 transactions by nonce, with the nonces kept in a heap.
 */
module AccountFlows {
  import opened Sums
  import opened Ledger
  import opened Batches
  import opened Nonces
  import opened PoolState

  ghost function ListValue(list: map<nat, Tx>, n: nat): int {
    if n in list then ValueOf(list[n]) else 0
  }

  /** What the listed transactions spend together. */
  ghost function ListTotal(list: map<nat, Tx>): int {
    Sum(list.Keys, n => ListValue(list, n))
  }

  lemma {:induction false} ListTotalAdd(list: map<nat, Tx>, t: Tx)
    requires t.nonce !in list
    ensures ListTotal(list[t.nonce := t]) == ListTotal(list) + ValueOf(t)
  {
    var list' := list[t.nonce := t];
    assert list'.Keys == list.Keys + {t.nonce};
    SumAdd(list.Keys, n => ListValue(list', n), t.nonce);
    SumSame(list.Keys, n => ListValue(list, n), n => ListValue(list', n));
  }

  class AccountFlow {
    var origin: int
    var spent: int
    var keys: seq<nat>
    var txflow: map<nat, Tx>

    function St(): Flow
      reads this`origin, this`spent, this`txflow
    {
      Flow(origin, spent, txflow)
    }

    /** The spending is that of the listed transactions, within the balance, and the heap holds their nonces once each. */
    ghost predicate Valid()
      reads this
    {
      && spent == ListTotal(txflow) && spent <= origin
      && Heap(keys) && NoRepeats(keys) && forall n :: n in keys <==> n in txflow
    }

    constructor (balance: nat)
      ensures Valid() && St() == Flow(balance, 0, map[])
    {
      origin, spent, keys, txflow := balance, 0, [], map[];
    }

    method GetTx(nonce: nat) returns (found: bool, t: Tx)
      ensures found <==> nonce in txflow
      ensures found ==> t == txflow[nonce]
    {
      if nonce in txflow { return true, txflow[nonce]; }
      return false, Normal(0, 0, 0, [], 0, 0);
    }

    /** Adds the value to the spending if the balance covers it. */
    method TrySubBalance(value: nat) returns (ok: bool)
      modifies this`spent
      ensures ok <==> old(spent) + value <= origin
      ensures spent == if ok then old(spent) + value else old(spent)
    {
      var total := spent + value;
      if total > origin { return false; }
      spent := total;
      ok := true;
    }

    /** A transaction with a new nonce that the balance covers joins the flow; any other changes nothing. */
    method Add(t: Tx) returns (ok: bool)
      requires Valid()
      modifies this`spent, this`keys, this`txflow
      ensures Valid() && St() == FlowAdd(old(St()), t)
      ensures ok <==> t.nonce !in old(txflow) && old(spent) + ValueOf(t) <= origin
    {
      if t.nonce in txflow { return false; }
      ok := TrySubBalance(ValueOf(t));
      if !ok { return; }
      ListTotalAdd(txflow, t);
      var pushed := HeapPush(keys, t.nonce);
      PushedOnce(keys, pushed, t.nonce);
      keys := pushed;
      txflow := txflow[t.nonce := t];
    }

    /** The largest nonce of the flow; finding it sorts the nonces. */
    method LatestNonce() returns (ok: bool, nonce: nat)
      requires Valid()
      modifies this`keys
      ensures Valid() && (ok <==> txflow != map[])
      ensures ok ==> nonce in txflow && forall n :: n in txflow ==> n <= nonce
    {
      if keys == [] {
        assert txflow == map[];
        return false, 0;
      }
      var sorted;
      nonce, sorted := Tail(keys);
      assert nonce in keys;
      SameElements(sorted, keys);
      SortedRises(sorted, keys);
      SortedIsHeap(sorted);
      keys := sorted;
      ok := true;
    }
  }
}
