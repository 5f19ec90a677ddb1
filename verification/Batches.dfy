/**
 Confirmation batches (core/tx_pool.go, core/dag.go): the per-address details that
 verifyConfirmBatch builds from the elders of a sequencer, what it accepts, and what processing
 an accepted batch does to the ledger, in whatever order the batch is walked.
 */
module Batches {
  import opened Sums
  import opened Ledger

  type Elders = map<Hash, Tx>

  /** `keys` holds the nonces of `list`, each once, in the order of the nonce heap's array. */
  datatype Detail = Detail(list: map<nat, Tx>, keys: seq<nat>, neg: int, pos: int)

  type Batch = map<Address, Detail>

  // ---------------------------------------------------------------------------
  // What a batch is
  // ---------------------------------------------------------------------------

  ghost function OutAt(elders: Elders, h: Hash, a: Address): int {
    if h in elders then OutOf(elders[h], a) else 0
  }

  ghost function InAt(elders: Elders, h: Hash, a: Address): int {
    if h in elders then InTo(elders[h], a) else 0
  }

  /** All that the elders among `done` take from the account. */
  ghost function Neg(elders: Elders, done: set<Hash>, a: Address): int {
    Sum(done, h => OutAt(elders, h, a))
  }

  ghost function Pos(elders: Elders, done: set<Hash>, a: Address): int {
    Sum(done, h => InAt(elders, h, a))
  }

  ghost predicate Hashed(elders: Elders) {
    forall h :: h in elders ==> elders[h].hash == h
  }

  ghost predicate Touched(elders: Elders, done: set<Hash>, a: Address) {
    exists h :: h in done && h in elders && elders[h].Normal? && (elders[h].sender == a || elders[h].to == a)
  }

  /** The nonce heap lists the nonces of the list once each. */
  ghost predicate KeysOf(d: Detail) {
    && (forall n :: n in d.keys <==> n in d.list)
    && (forall i, j :: 0 <= i < j < |d.keys| ==> d.keys[i] != d.keys[j])
  }

  /** The list of an address holds elders it sent, one for each nonce it used. */
  ghost predicate ListOk(elders: Elders, done: set<Hash>, a: Address, d: Detail) {
    && KeysOf(d)
    && (forall n :: n in d.list ==> d.list[n].Normal? && d.list[n].sender == a && d.list[n].nonce == n && Has(elders, done, d.list[n]))
    && (forall h :: h in done && h in elders && elders[h].Normal? && elders[h].sender == a ==> elders[h].nonce in d.list)
  }

  ghost predicate Has(elders: Elders, done: set<Hash>, t: Tx) {
    t.hash in done && t.hash in elders && elders[t.hash] == t
  }

  ghost predicate DetailOk(elders: Elders, done: set<Hash>, a: Address, d: Detail) {
    d.neg == Neg(elders, done, a) && d.pos == Pos(elders, done, a) && ListOk(elders, done, a, d)
  }

  /** The batch of the elders in `done`. */
  ghost predicate IsBatch(elders: Elders, done: set<Hash>, b: Batch) {
    && (forall a :: a in b <==> Touched(elders, done, a))
    && (forall a :: a in b ==> DetailOk(elders, done, a, b[a]))
  }

  // ---------------------------------------------------------------------------
  // What is accepted
  // ---------------------------------------------------------------------------

  /** The nonce an account has to use next: 0 for a new account. */
  function First(acc: Accounts, a: Address): nat {
    if a in acc then acc[a].nonce + 1 else 0
  }

  /** The nonces continue those of the account without a gap up to `last`. */
  ghost predicate Continues(acc: Accounts, a: Address, nonces: set<nat>, last: nat) {
    last in nonces && forall n: nat :: n in nonces <==> First(acc, a) <= n <= last
  }

  ghost predicate NoncesOk(acc: Accounts, a: Address, nonces: set<nat>, s: Tx) {
    exists last: nat {:trigger Continues(acc, a, nonces, last)} :: Continues(acc, a, nonces, last) && (s.sender == a ==> s.nonce == last + 1)
  }

  ghost predicate DetailAccepted(acc: Accounts, s: Tx, a: Address, d: Detail) {
    d.neg <= Balance(acc, a) && (d.keys != [] ==> NoncesOk(acc, a, d.list.Keys, s))
  }

  /** The sequencer uses a nonce no elder uses, every sender can pay, and nonces are gap-free. */
  ghost predicate Accepted(acc: Accounts, s: Tx, elders: Elders, b: Batch) {
    && (forall h :: h in elders ==> (elders[h].sender, elders[h].nonce) != (s.sender, s.nonce))
    && (forall a :: a in b ==> DetailAccepted(acc, s, a, b[a]))
  }

  /** No two normal elders use the same nonce of the same sender. */
  ghost predicate DistinctPairs(elders: Elders) {
    forall g, h :: g in elders && h in elders && elders[g].Normal? && elders[h].Normal? && g != h ==>
      (elders[g].sender, elders[g].nonce) != (elders[h].sender, elders[h].nonce)
  }

  // ---------------------------------------------------------------------------
  // Walking a batch
  // ---------------------------------------------------------------------------

  ghost predicate Listed(b: Batch, t: Tx) {
    t.sender in b && t.nonce in b[t.sender].list && b[t.sender].list[t.nonce] == t
  }

  ghost predicate Distinct(ts: seq<Tx>) {
    forall i, j :: 0 <= i < j < |ts| ==> ts[i] != ts[j]
  }

  /** The transactions of the batch, each once, in some order. */
  ghost predicate Walk(b: Batch, ts: seq<Tx>) {
    && Distinct(ts)
    && (forall i :: 0 <= i < |ts| ==> Listed(b, ts[i]))
    && (forall a, n :: a in b && n in b[a].list ==> b[a].list[n] in ts)
  }

  function Hashes(ts: seq<Tx>): set<Hash> {
    set i | 0 <= i < |ts| :: ts[i].hash
  }

  ghost predicate FromElders(elders: Elders, ts: seq<Tx>) {
    Distinct(ts) && forall i :: 0 <= i < |ts| ==> Has(elders, elders.Keys, ts[i])
  }

  lemma {:induction false} WalkFromElders(elders: Elders, b: Batch, ts: seq<Tx>)
    requires IsBatch(elders, elders.Keys, b) && Walk(b, ts)
    ensures FromElders(elders, ts)
  {
    forall i | 0 <= i < |ts| ensures Has(elders, elders.Keys, ts[i]) {
      assert Listed(b, ts[i]);
      assert DetailOk(elders, elders.Keys, ts[i].sender, b[ts[i].sender]);
    }
  }

  lemma {:induction false} HashesLast(elders: Elders, ts: seq<Tx>)
    requires FromElders(elders, ts) && ts != []
    ensures FromElders(elders, ts[..|ts| - 1])
    ensures Hashes(ts) == Hashes(ts[..|ts| - 1]) + {ts[|ts| - 1].hash} && ts[|ts| - 1].hash !in Hashes(ts[..|ts| - 1])
  {
    var front, last := ts[..|ts| - 1], ts[|ts| - 1];
    forall i | 0 <= i < |front| ensures front[i] == ts[i] && front[i].hash != last.hash {
      assert Has(elders, elders.Keys, ts[i]) && Has(elders, elders.Keys, last);
    }
    forall h | h in Hashes(ts) ensures h in Hashes(front) + {last.hash} {
      var i :| 0 <= i < |ts| && ts[i].hash == h;
      if i < |front| { assert front[i].hash == h; }
    }
    forall h | h in Hashes(front) ensures h in Hashes(ts) {
      var i :| 0 <= i < |front| && front[i].hash == h;
      assert ts[i].hash == h;
    }
  }

  /** The totals of a walk are totals over the hashes it walks. */
  lemma {:induction false} WalkTotals(elders: Elders, ts: seq<Tx>, a: Address)
    requires FromElders(elders, ts)
    ensures Outgoing(ts, a) == Neg(elders, Hashes(ts), a) && Incoming(ts, a) == Pos(elders, Hashes(ts), a)
    decreases |ts|
  {
    if ts != [] {
      var front, last := ts[..|ts| - 1], ts[|ts| - 1];
      HashesLast(elders, ts);
      WalkTotals(elders, front, a);
      assert Has(elders, elders.Keys, last);
      SumAdd(Hashes(front), h => OutAt(elders, h, a), last.hash);
      SumAdd(Hashes(front), h => InAt(elders, h, a), last.hash);
    }
  }

  lemma {:induction false} HashesInside(elders: Elders, ts: seq<Tx>)
    requires FromElders(elders, ts)
    ensures Hashes(ts) <= elders.Keys
  {
    forall h | h in Hashes(ts) ensures h in elders {
      var i :| 0 <= i < |ts| && ts[i].hash == h;
      assert Has(elders, elders.Keys, ts[i]);
    }
  }

  /** A part of a sum of non-negative terms is not more than the sum. */
  lemma {:induction false} NegPart(elders: Elders, s: set<Hash>, t: set<Hash>, a: Address)
    requires s <= t
    ensures Neg(elders, s, a) <= Neg(elders, t, a)
    decreases |t - s|
  {
    if t - s == {} {
      assert s == t;
    } else {
      var h :| h in t - s;
      assert t - (s + {h}) < t - s;
      SumAdd(s, x => OutAt(elders, x, a), h);
      NegPart(elders, s + {h}, t, a);
    }
  }

  /** A walk takes from no account more than the batch says. */
  lemma {:induction false} WalkAffordable(elders: Elders, b: Batch, ts: seq<Tx>, a: Address)
    requires IsBatch(elders, elders.Keys, b) && Walk(b, ts)
    ensures if a in b then Outgoing(ts, a) <= b[a].neg else Outgoing(ts, a) == 0
  {
    WalkFromElders(elders, b, ts);
    WalkTotals(elders, ts, a);
    HashesInside(elders, ts);
    NegPart(elders, Hashes(ts), elders.Keys, a);
    if a in b {
      assert DetailOk(elders, elders.Keys, a, b[a]);
    } else {
      NegPart(elders, {}, Hashes(ts), a);
      forall h | h in elders ensures OutAt(elders, h, a) == 0 {
        assert !Touched(elders, elders.Keys, a);
      }
      SumExtend({}, elders.Keys, h => OutAt(elders, h, a));
    }
  }

  /** With distinct pairs the walk takes and gives exactly what the batch says. */
  lemma {:induction false} WalkExact(elders: Elders, b: Batch, ts: seq<Tx>, a: Address)
    requires Hashed(elders) && IsBatch(elders, elders.Keys, b) && Walk(b, ts) && DistinctPairs(elders)
    ensures Outgoing(ts, a) == Neg(elders, elders.Keys, a) && Incoming(ts, a) == Pos(elders, elders.Keys, a)
  {
    WalkFromElders(elders, b, ts);
    WalkTotals(elders, ts, a);
    HashesInside(elders, ts);
    forall h | h in elders && elders[h].Normal? ensures h in Hashes(ts) { WalkAll(elders, b, ts, h); }
    SumExtend(Hashes(ts), elders.Keys, h => OutAt(elders, h, a));
    SumExtend(Hashes(ts), elders.Keys, h => InAt(elders, h, a));
  }

  /** With distinct pairs every normal elder is walked. */
  lemma {:induction false} WalkAll(elders: Elders, b: Batch, ts: seq<Tx>, h: Hash)
    requires Hashed(elders) && IsBatch(elders, elders.Keys, b) && Walk(b, ts) && DistinctPairs(elders) && h in elders && elders[h].Normal?
    ensures elders[h] in ts && h in Hashes(ts)
  {
    var t := elders[h];
    assert Touched(elders, elders.Keys, t.sender);
    assert DetailOk(elders, elders.Keys, t.sender, b[t.sender]);
    var u := b[t.sender].list[t.nonce];
    assert Has(elders, elders.Keys, u) && u in ts;
    assert u == t;
  }

  /** Two normal elders that use the same nonce of the same sender. */
  ghost predicate Twins(elders: Elders, g: Hash, h: Hash) {
    && g in elders && h in elders && elders[g].Normal? && elders[h].Normal?
    && (elders[g].sender, elders[g].nonce) == (elders[h].sender, elders[h].nonce)
  }

  /** Of the normal elders that share a sender and a nonce exactly one is walked. */
  lemma {:induction false} OneTwin(elders: Elders, b: Batch, ts: seq<Tx>, h: Hash) returns (g: Hash)
    requires Hashed(elders) && IsBatch(elders, elders.Keys, b) && Walk(b, ts) && h in elders && elders[h].Normal?
    ensures Twins(elders, g, h) && g in Hashes(ts)
    ensures forall k :: Twins(elders, k, h) && k in Hashes(ts) ==> k == g
  {
    var t := elders[h];
    assert Touched(elders, elders.Keys, t.sender);
    assert DetailOk(elders, elders.Keys, t.sender, b[t.sender]);
    var u := b[t.sender].list[t.nonce];
    assert Has(elders, elders.Keys, u) && u in ts;
    g := u.hash;
    forall k | Twins(elders, k, h) && k in Hashes(ts) ensures k == g {
      var i :| 0 <= i < |ts| && ts[i].hash == k;
      assert Listed(b, ts[i]);
      WalkFromElders(elders, b, ts);
      assert Has(elders, elders.Keys, ts[i]);
    }
  }

  ghost predicate AllWalked(elders: Elders, ts: seq<Tx>) {
    forall h :: h in elders && elders[h].Normal? ==> h in Hashes(ts)
  }

  /** All normal elders are walked exactly when no two of them share a sender and a nonce. */
  lemma {:induction false} WalkAllExactly(elders: Elders, b: Batch, ts: seq<Tx>)
    requires Hashed(elders) && IsBatch(elders, elders.Keys, b) && Walk(b, ts)
    ensures AllWalked(elders, ts) <==> DistinctPairs(elders)
  {
    if DistinctPairs(elders) {
      forall h | h in elders && elders[h].Normal? ensures h in Hashes(ts) { WalkAll(elders, b, ts, h); }
    }
    if AllWalked(elders, ts) {
      forall g, h | g in elders && h in elders && Twins(elders, g, h) ensures g == h { OnlyTwin(elders, b, ts, g, h); }
    }
  }

  lemma {:induction false} OnlyTwin(elders: Elders, b: Batch, ts: seq<Tx>, g: Hash, h: Hash)
    requires Hashed(elders) && IsBatch(elders, elders.Keys, b) && Walk(b, ts) && AllWalked(elders, ts) && Twins(elders, g, h)
    ensures g == h
  {
    var k := OneTwin(elders, b, ts, h);
    assert Twins(elders, h, h);
  }

  // ---------------------------------------------------------------------------
  // Ledger safety
  // ---------------------------------------------------------------------------

  /**
   Processing an accepted batch, in any order, never overdraws an account, and conserves the
   sum of all balances.
   */
  lemma {:induction false} LedgerSafe(acc: Accounts, s: Tx, elders: Elders, b: Batch, ts: seq<Tx>, k: nat, a: Address)
    requires IsBatch(elders, elders.Keys, b) && Accepted(acc, s, elders, b) && Walk(b, ts) && k <= |ts| && Balance(acc, a) >= 0
    ensures Balance(Run(acc, ts[..k]), a) >= 0
    ensures Total(Run(acc, ts[..k])) == Total(acc)
  {
    WalkAffordable(elders, b, ts, a);
    assert a in b ==> DetailAccepted(acc, s, a, b[a]);
    NeverOverdrawn(acc, ts, k, a);
    Conserved(acc, ts[..k]);
  }

  /**
   Every account ends at its old balance less the outcome plus the income of the elders that are
   processed; with distinct pairs those are all the elders.
   */
  lemma {:induction false} LedgerExact(acc: Accounts, elders: Elders, b: Batch, ts: seq<Tx>, a: Address)
    requires Hashed(elders) && IsBatch(elders, elders.Keys, b) && Walk(b, ts)
    ensures Balance(Run(acc, ts), a) == Balance(acc, a) - Neg(elders, Hashes(ts), a) + Pos(elders, Hashes(ts), a)
    ensures DistinctPairs(elders) ==>
              Balance(Run(acc, ts), a) == Balance(acc, a) - Neg(elders, elders.Keys, a) + Pos(elders, elders.Keys, a)
  {
    WalkFromElders(elders, b, ts);
    WalkTotals(elders, ts, a);
    if DistinctPairs(elders) { WalkExact(elders, b, ts, a); }
    RunBalance(acc, ts, a);
  }

  // ---------------------------------------------------------------------------
  // Nonce continuity
  // ---------------------------------------------------------------------------

  /** The nonces used by an account: one interval up to its current nonce, from 0 or 1. */
  ghost predicate Continuous(acc: Accounts, a: Address, used: iset<nat>) {
    Interval(acc, a, used, 0) || Interval(acc, a, used, 1)
  }

  ghost predicate Interval(acc: Accounts, a: Address, used: iset<nat>, start: nat) {
    forall n: nat :: n in used <==> a in acc && start <= n <= acc[a].nonce
  }

  /** Nonces that continue those of the account extend its interval. */
  lemma {:induction false} Extends(acc: Accounts, acc': Accounts, a: Address, used: iset<nat>, sent: iset<nat>, last: nat)
    requires Continuous(acc, a, used) && a in acc' && acc'[a].nonce == last
    requires forall n: nat :: n in sent <==> First(acc, a) <= n <= last
    requires First(acc, a) <= last
    ensures Continuous(acc', a, used + sent) && used !! sent
  {
    if a in acc {
      var start: nat := if Interval(acc, a, used, 0) then 0 else 1;
      assert Interval(acc, a, used, start);
      assert Interval(acc', a, used + sent, start);
    } else {
      assert Interval(acc', a, used + sent, 0);
    }
  }

  lemma {:induction false} StaysIdle(acc: Accounts, acc': Accounts, a: Address, used: iset<nat>)
    requires Continuous(acc, a, used) && Nonce(acc', a) == Nonce(acc, a) && (a in acc ==> a in acc')
    ensures Continuous(acc', a, used)
  {
    if a in acc {
      var start: nat := if Interval(acc, a, used, 0) then 0 else 1;
      assert Interval(acc', a, used, start);
    } else {
      assert Interval(acc', a, used, 1);
    }
  }

  ghost function SentBy(ts: seq<Tx>, a: Address): iset<nat> {
    iset n: nat | Sent(ts, a, n)
  }

  /** An account that only sends through accepted batches keeps one gap-free interval, and uses no nonce twice. */
  lemma {:induction false} StaysContinuous(acc: Accounts, used: iset<nat>, s: Tx, elders: Elders, b: Batch, ts: seq<Tx>, a: Address)
    requires Continuous(acc, a, used)
    requires IsBatch(elders, elders.Keys, b) && Accepted(acc, s, elders, b) && Walk(b, ts)
    ensures Continuous(Run(acc, ts), a, used + SentBy(ts, a)) && used !! SentBy(ts, a)
  {
    if a in b && b[a].keys != [] {
      var last := LastSent(acc, s, elders, b, ts, a);
      Extends(acc, Run(acc, ts), a, used, SentBy(ts, a), last);
    } else {
      NoneSent(acc, elders, b, ts, a);
      assert used + SentBy(ts, a) == used;
      StaysIdle(acc, Run(acc, ts), a, used);
    }
  }

  lemma {:induction false} LastSent(acc: Accounts, s: Tx, elders: Elders, b: Batch, ts: seq<Tx>, a: Address) returns (last: nat)
    requires IsBatch(elders, elders.Keys, b) && Accepted(acc, s, elders, b) && Walk(b, ts) && a in b && b[a].keys != []
    ensures First(acc, a) <= last && a in Run(acc, ts) && Run(acc, ts)[a].nonce == last
    ensures forall n: nat :: n in SentBy(ts, a) <==> First(acc, a) <= n <= last
  {
    last := LastListed(acc, s, a, b[a]);
    SentUpTo(acc, elders, b, ts, a, last);
    NonceIsLast(acc, ts, a, last);
  }

  lemma {:induction false} NonceIsLast(acc: Accounts, ts: seq<Tx>, a: Address, last: nat)
    requires First(acc, a) <= last && forall n: nat :: Sent(ts, a, n) <==> First(acc, a) <= n <= last
    ensures a in Run(acc, ts) && Run(acc, ts)[a].nonce == last
    ensures forall n: nat :: n in SentBy(ts, a) <==> First(acc, a) <= n <= last
  {
    RunNonce(acc, ts, a);
    HighestSent(acc, ts, a, Nonce(Run(acc, ts), a), last);
  }

  lemma {:induction false} SentUpTo(acc: Accounts, elders: Elders, b: Batch, ts: seq<Tx>, a: Address, last: nat)
    requires IsBatch(elders, elders.Keys, b) && Walk(b, ts) && a in b && Continues(acc, a, b[a].list.Keys, last)
    ensures First(acc, a) <= last && forall n: nat :: Sent(ts, a, n) <==> First(acc, a) <= n <= last
  {
    SentListed(elders, b, ts, a);
    forall n: nat ensures Sent(ts, a, n) <==> First(acc, a) <= n <= last {
      assert n in b[a].list.Keys <==> n in b[a].list;
    }
  }

  lemma {:induction false} LastListed(acc: Accounts, s: Tx, a: Address, d: Detail) returns (last: nat)
    requires DetailAccepted(acc, s, a, d) && d.keys != []
    ensures Continues(acc, a, d.list.Keys, last)
  {
    last :| Continues(acc, a, d.list.Keys, last);
  }

  lemma {:induction false} HighestSent(acc: Accounts, ts: seq<Tx>, a: Address, n: nat, last: nat)
    requires Highest(acc, ts, a, n) && First(acc, a) <= last && forall m: nat :: Sent(ts, a, m) <==> First(acc, a) <= m <= last
    ensures n == last && Sent(ts, a, last)
  {
    assert Sent(ts, a, last);
  }

  lemma {:induction false} NoneSent(acc: Accounts, elders: Elders, b: Batch, ts: seq<Tx>, a: Address)
    requires IsBatch(elders, elders.Keys, b) && Walk(b, ts) && (a in b ==> b[a].keys == [])
    ensures SentBy(ts, a) == iset{} && Nonce(Run(acc, ts), a) == Nonce(acc, a) && (a in acc ==> a in Run(acc, ts))
  {
    RunNonce(acc, ts, a);
    SentListed(elders, b, ts, a);
  }

  lemma {:induction false} SentListed(elders: Elders, b: Batch, ts: seq<Tx>, a: Address)
    requires IsBatch(elders, elders.Keys, b) && Walk(b, ts)
    ensures forall n: nat :: Sent(ts, a, n) <==> a in b && n in b[a].list
    ensures a in b ==> (b[a].keys == [] <==> b[a].list == map[])
  {
    forall n: nat ensures Sent(ts, a, n) <==> a in b && n in b[a].list {
      if Sent(ts, a, n) {
        var i :| 0 <= i < |ts| && ts[i].sender == a && ts[i].nonce == n;
        assert Listed(b, ts[i]);
      }
      if a in b && n in b[a].list {
        assert DetailOk(elders, elders.Keys, a, b[a]);
        var i :| 0 <= i < |ts| && ts[i] == b[a].list[n];
        assert ts[i].sender == a && ts[i].nonce == n;
      }
    }
    if a in b {
      assert DetailOk(elders, elders.Keys, a, b[a]);
      if b[a].keys != [] { assert b[a].keys[0] in b[a].keys; }
    }
  }
}
