/**
 Balances and nonces of the ledger (core/dag.go), as values: what processing a transaction
 does to the accounts, and what any sequence of transactions does.
 */
module Ledger {
  import opened Sums

  type Hash = nat

  type Address = nat

  /** A transaction without contract data, or a sequencer. */
  datatype Tx =
    | Normal(hash: Hash, sender: Address, nonce: nat, parents: seq<Hash>, to: Address, value: nat)
    | Sequencer(hash: Hash, sender: Address, nonce: nat, parents: seq<Hash>, height: nat)

  ghost predicate NoRepeats(s: seq<nat>) {
    forall i, j :: 0 <= i < j < |s| ==> s[i] != s[j]
  }

  datatype Account = Account(balance: int, nonce: nat)

  type Accounts = map<Address, Account>

  function Balance(acc: Accounts, a: Address): int {
    if a in acc then acc[a].balance else 0
  }

  function Nonce(acc: Accounts, a: Address): nat {
    if a in acc then acc[a].nonce else 0
  }

  /** The nonce moves up only; a first transaction creates the account. */
  function SetNonce(acc: Accounts, t: Tx): Accounts {
    if t.sender !in acc || t.nonce > acc[t.sender].nonce then acc[t.sender := Account(Balance(acc, t.sender), t.nonce)] else acc
  }

  function Credit(acc: Accounts, a: Address, amount: int): Accounts {
    acc[a := Account(Balance(acc, a) + amount, Nonce(acc, a))]
  }

  function Process(acc: Accounts, t: Tx): Accounts {
    var acc1 := SetNonce(acc, t);
    if t.Sequencer? || t.value == 0 then acc1
    else Credit(Credit(acc1, t.sender, 0 - t.value), t.to, t.value)
  }

  /** Transactions processed one after the other. */
  function Run(acc: Accounts, ts: seq<Tx>): Accounts {
    if ts == [] then acc else Process(Run(acc, ts[..|ts| - 1]), ts[|ts| - 1])
  }

  // ---------------------------------------------------------------------------
  // Money
  // ---------------------------------------------------------------------------

  function OutOf(t: Tx, a: Address): nat {
    if t.Normal? && t.sender == a then t.value else 0
  }

  function InTo(t: Tx, a: Address): nat {
    if t.Normal? && t.to == a then t.value else 0
  }

  /** What the transactions take from an account. */
  function Outgoing(ts: seq<Tx>, a: Address): nat {
    if ts == [] then 0 else Outgoing(ts[..|ts| - 1], a) + OutOf(ts[|ts| - 1], a)
  }

  /** What the transactions give to an account. */
  function Incoming(ts: seq<Tx>, a: Address): nat {
    if ts == [] then 0 else Incoming(ts[..|ts| - 1], a) + InTo(ts[|ts| - 1], a)
  }

  lemma {:induction false} ProcessBalance(acc: Accounts, t: Tx, a: Address)
    ensures Balance(Process(acc, t), a) == Balance(acc, a) - OutOf(t, a) + InTo(t, a)
  {
  }

  /** In whatever order, an account ends with what it had, less what it sent, plus what it was sent. */
  lemma {:induction false} RunBalance(acc: Accounts, ts: seq<Tx>, a: Address)
    ensures Balance(Run(acc, ts), a) == Balance(acc, a) - Outgoing(ts, a) + Incoming(ts, a)
    decreases |ts|
  {
    if ts != [] {
      RunBalance(acc, ts[..|ts| - 1], a);
      ProcessBalance(Run(acc, ts[..|ts| - 1]), ts[|ts| - 1], a);
    }
  }

  lemma {:induction false} OutgoingPrefix(ts: seq<Tx>, k: nat, a: Address)
    requires k <= |ts|
    ensures Outgoing(ts[..k], a) <= Outgoing(ts, a)
    decreases |ts|
  {
    if k < |ts| {
      OutgoingPrefix(ts[..|ts| - 1], k, a);
      assert ts[..|ts| - 1][..k] == ts[..k];
    } else {
      assert ts[..k] == ts;
    }
  }

  /** If each account can pay for all it sends, no account is ever overdrawn, in any order and at any point. */
  lemma {:induction false} NeverOverdrawn(acc: Accounts, ts: seq<Tx>, k: nat, a: Address)
    requires k <= |ts| && Outgoing(ts, a) <= Balance(acc, a)
    ensures Balance(Run(acc, ts[..k]), a) >= 0
  {
    RunBalance(acc, ts[..k], a);
    OutgoingPrefix(ts, k, a);
  }

  ghost function Total(acc: Accounts): int {
    Sum(acc.Keys, a => Balance(acc, a))
  }

  /** One account set to a new balance moves the total by the difference. */
  lemma {:induction false} TotalSet(acc: Accounts, a: Address, x: Account)
    ensures Total(acc[a := x]) == Total(acc) + x.balance - Balance(acc, a)
  {
    var acc' := acc[a := x];
    if a in acc {
      assert acc'.Keys == acc.Keys;
      SumChange(acc.Keys, b => Balance(acc, b), b => Balance(acc', b), a);
    } else {
      assert acc'.Keys == acc.Keys + {a};
      SumAdd(acc.Keys, b => Balance(acc', b), a);
      SumSame(acc.Keys, b => Balance(acc, b), b => Balance(acc', b));
    }
  }

  lemma {:induction false} ProcessTotal(acc: Accounts, t: Tx)
    ensures Total(Process(acc, t)) == Total(acc)
  {
    var acc1 := SetNonce(acc, t);
    TotalSet(acc, t.sender, Account(Balance(acc, t.sender), t.nonce));
    if t.Normal? && t.value != 0 {
      var acc2 := Credit(acc1, t.sender, 0 - t.value);
      TotalSet(acc1, t.sender, Account(Balance(acc1, t.sender) - t.value, Nonce(acc1, t.sender)));
      TotalSet(acc2, t.to, Account(Balance(acc2, t.to) + t.value, Nonce(acc2, t.to)));
    }
  }

  /** No transaction makes or destroys money. */
  lemma {:induction false} Conserved(acc: Accounts, ts: seq<Tx>)
    ensures Total(Run(acc, ts)) == Total(acc)
    decreases |ts|
  {
    if ts != [] {
      Conserved(acc, ts[..|ts| - 1]);
      ProcessTotal(Run(acc, ts[..|ts| - 1]), ts[|ts| - 1]);
    }
  }

  // ---------------------------------------------------------------------------
  // Nonces
  // ---------------------------------------------------------------------------

  /** Some transaction of the account has the nonce. */
  ghost predicate Sent(ts: seq<Tx>, a: Address, n: nat) {
    exists i :: 0 <= i < |ts| && ts[i].sender == a && ts[i].nonce == n
  }

  /** The nonce ends at the largest of the old one and those of the account's transactions. */
  ghost predicate Highest(acc: Accounts, ts: seq<Tx>, a: Address, n: nat) {
    && (n == Nonce(acc, a) || Sent(ts, a, n))
    && Nonce(acc, a) <= n
    && forall m: nat :: Sent(ts, a, m) ==> m <= n
  }

  lemma {:induction false} RunNonce(acc: Accounts, ts: seq<Tx>, a: Address)
    ensures Highest(acc, ts, a, Nonce(Run(acc, ts), a))
    ensures a in acc ==> a in Run(acc, ts)
    ensures forall m: nat :: Sent(ts, a, m) ==> a in Run(acc, ts)
    decreases |ts|
  {
    if ts != [] {
      var front, last := ts[..|ts| - 1], ts[|ts| - 1];
      RunNonce(acc, front, a);
      forall m: nat ensures Sent(ts, a, m) <==> Sent(front, a, m) || (last.sender == a && last.nonce == m) {
        SentLast(ts, a, m);
      }
      ProcessNonce(Run(acc, front), last, a);
    }
  }

  lemma {:induction false} SentLast(ts: seq<Tx>, a: Address, n: nat)
    requires ts != []
    ensures Sent(ts, a, n) <==> Sent(ts[..|ts| - 1], a, n) || (ts[|ts| - 1].sender == a && ts[|ts| - 1].nonce == n)
  {
    var front := ts[..|ts| - 1];
    if Sent(front, a, n) {
      var i :| 0 <= i < |front| && front[i].sender == a && front[i].nonce == n;
      assert ts[i] == front[i];
    }
    if Sent(ts, a, n) {
      var i :| 0 <= i < |ts| && ts[i].sender == a && ts[i].nonce == n;
      if i < |front| { assert front[i] == ts[i]; }
    }
  }

  lemma {:induction false} ProcessNonce(acc: Accounts, t: Tx, a: Address)
    ensures Nonce(Process(acc, t), a) == if a == t.sender && (a !in acc || t.nonce > acc[a].nonce) then t.nonce else Nonce(acc, a)
    ensures a in acc || a == t.sender ==> a in Process(acc, t)
  {
  }
}
