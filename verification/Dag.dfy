/**
 The confirmed ledger of core/dag.go: transactions by hash and by sender and nonce, their
 confirmation heights, the accounts, and the push of a verified batch.
 */
module Dag {
  import opened Ledger
  import opened Batches

  /** What the database holds. */
  datatype Chain = Chain(
    txs: map<Hash, Tx>,
    heights: map<Hash, nat>,
    index: map<(Address, nat), Hash>,
    accounts: Accounts,
    latest: nat)

  /** One transaction written and processed. */
  function Confirm(c: Chain, t: Tx, height: nat): Chain {
    c.(txs := c.txs[t.hash := t], heights := c.heights[t.hash := height],
       index := c.index[(t.sender, t.nonce) := t.hash], accounts := Process(c.accounts, t))
  }

  function ConfirmAll(c: Chain, ts: seq<Tx>, height: nat): Chain {
    if ts == [] then c else Confirm(ConfirmAll(c, ts[..|ts| - 1], height), ts[|ts| - 1], height)
  }

  /** A batch and its sequencer. */
  function Pushed(c: Chain, ts: seq<Tx>, s: Tx): Chain
    requires s.Sequencer?
  {
    Confirm(ConfirmAll(c, ts, s.height), s, s.height).(latest := s.height)
  }

  /** Transactions are found by their hash, and by their sender and nonce one of that sender and nonce is found. */
  ghost predicate Indexed(c: Chain) {
    && (forall h :: h in c.txs ==> c.txs[h].hash == h && (c.txs[h].sender, c.txs[h].nonce) in c.index && h in c.heights)
    && (forall p :: p in c.index ==> c.index[p] in c.txs && c.txs[c.index[p]].sender == p.0 && c.txs[c.index[p]].nonce == p.1)
  }

  /** A hash determines its transaction. */
  ghost predicate Authentic(c: Chain, content: Hash -> Tx) {
    forall h :: h in c.txs ==> c.txs[h] == content(h)
  }

  ghost predicate AllAuthentic(ts: seq<Tx>, content: Hash -> Tx) {
    forall i :: 0 <= i < |ts| ==> ts[i] == content(ts[i].hash)
  }

  lemma {:induction false} ConfirmIndexed(c: Chain, t: Tx, height: nat)
    requires Indexed(c) && (t.hash in c.txs ==> c.txs[t.hash] == t)
    ensures Indexed(Confirm(c, t, height))
  {
    var c' := Confirm(c, t, height);
    forall p | p in c'.index ensures c'.index[p] in c'.txs && c'.txs[c'.index[p]].sender == p.0 && c'.txs[c'.index[p]].nonce == p.1 {
      if p != (t.sender, t.nonce) { assert p in c.index; }
    }
  }

  /** Pushing keeps the ledger indexed and authentic. */
  lemma {:induction false} PushedIndexed(c: Chain, ts: seq<Tx>, s: Tx, content: Hash -> Tx)
    requires Indexed(c) && Authentic(c, content) && AllAuthentic(ts, content) && s.Sequencer? && s == content(s.hash)
    ensures Indexed(Pushed(c, ts, s)) && Authentic(Pushed(c, ts, s), content)
  {
    ConfirmAllIndexed(c, ts, s.height, content);
    ConfirmIndexed(ConfirmAll(c, ts, s.height), s, s.height);
  }

  lemma {:induction false} ConfirmAllAccounts(c: Chain, ts: seq<Tx>, height: nat)
    ensures ConfirmAll(c, ts, height).accounts == Run(c.accounts, ts)
    decreases |ts|
  {
    if ts != [] { ConfirmAllAccounts(c, ts[..|ts| - 1], height); }
  }

  lemma {:induction false} ConfirmAllIndexed(c: Chain, ts: seq<Tx>, height: nat, content: Hash -> Tx)
    requires Indexed(c) && Authentic(c, content) && AllAuthentic(ts, content)
    ensures Indexed(ConfirmAll(c, ts, height)) && Authentic(ConfirmAll(c, ts, height), content)
    decreases |ts|
  {
    if ts != [] {
      ConfirmAllIndexed(c, ts[..|ts| - 1], height, content);
      ConfirmIndexed(ConfirmAll(c, ts[..|ts| - 1], height), ts[|ts| - 1], height);
    }
  }

  /** The batch, and nothing else, is confirmed at the given height. */
  ghost predicate ConfirmedAt(c: Chain, c': Chain, hs: set<Hash>, height: nat, h: Hash) {
    && (h in c'.txs <==> h in c.txs || h in hs)
    && (h in c'.heights <==> h in c.heights || h in hs)
    && (h in hs ==> c'.heights[h] == height)
    && (h !in hs && h in c.txs ==> c'.txs[h] == c.txs[h])
    && (h !in hs && h in c.heights ==> c'.heights[h] == c.heights[h])
  }

  lemma {:induction false} ConfirmAllTxs(c: Chain, ts: seq<Tx>, height: nat, h: Hash)
    ensures ConfirmedAt(c, ConfirmAll(c, ts, height), Hashes(ts), height, h)
    decreases |ts|
  {
    if ts == [] {
      assert ConfirmAll(c, ts, height) == c && Hashes(ts) == {};
    } else {
      ConfirmAllTxs(c, ts[..|ts| - 1], height, h);
      HashesOfLast(ts, h);
    }
  }

  lemma {:induction false} HashesOfLast(ts: seq<Tx>, h: Hash)
    requires ts != []
    ensures h in Hashes(ts) <==> h in Hashes(ts[..|ts| - 1]) || h == ts[|ts| - 1].hash
  {
    var front := ts[..|ts| - 1];
    if h in Hashes(ts) {
      var i :| 0 <= i < |ts| && ts[i].hash == h;
      if i < |front| { assert front[i].hash == h; }
    }
    if h in Hashes(front) {
      var i :| 0 <= i < |front| && front[i].hash == h;
      assert ts[i].hash == h;
    }
    assert ts[|ts| - 1].hash in Hashes(ts);
  }

  lemma {:induction false} ConfirmAllIndex(c: Chain, ts: seq<Tx>, height: nat, a: Address, n: nat)
    ensures (a, n) in ConfirmAll(c, ts, height).index <==> (a, n) in c.index || Sent(ts, a, n)
    decreases |ts|
  {
    if ts != [] {
      ConfirmAllIndex(c, ts[..|ts| - 1], height, a, n);
      SentLast(ts, a, n);
    }
  }

  // ---------------------------------------------------------------------------
  // Runs of confirmations
  // ---------------------------------------------------------------------------

  /** `h` is a confirmed transaction of the account with the nonce. */
  predicate Spends(c: Chain, a: Address, n: nat, h: Hash) {
    h in c.txs && c.txs[h].sender == a && c.txs[h].nonce == n
  }

  ghost predicate Uses(c: Chain, a: Address, n: nat) {
    exists h :: Spends(c, a, n, h)
  }

  /** The nonces of the account's confirmed transactions. */
  ghost function Used(c: Chain, a: Address): iset<nat> {
    iset n: nat | Uses(c, a, n)
  }

  lemma {:induction false} UsedIndexed(c: Chain, a: Address, n: nat)
    requires Indexed(c)
    ensures n in Used(c, a) <==> (a, n) in c.index
  {
    if n in Used(c, a) {
      var h :| Spends(c, a, n, h);
    }
    if (a, n) in c.index { assert Spends(c, a, n, c.index[(a, n)]); }
  }

  /** The confirmed nonces of the account after a push: those before and those of the batch. */
  lemma {:induction false} UsedAfter(c: Chain, s: Tx, ts: seq<Tx>, a: Address)
    requires s.Sequencer? && s.sender != a && Indexed(c) && Indexed(Pushed(c, ts, s))
    ensures Used(Pushed(c, ts, s), a) == Used(c, a) + SentBy(ts, a)
  {
    forall n: nat ensures n in Used(Pushed(c, ts, s), a) <==> n in Used(c, a) + SentBy(ts, a) {
      UsedIndexed(c, a, n);
      UsedIndexed(Pushed(c, ts, s), a, n);
      ConfirmAllIndex(c, ts, s.height, a, n);
    }
  }

  /** No confirmation is above the latest height. */
  ghost predicate HeightsOk(c: Chain) {
    forall h :: h in c.heights ==> c.heights[h] <= c.latest
  }

  lemma {:induction false} PushedHeights(c: Chain, s: Tx, ts: seq<Tx>)
    requires HeightsOk(c) && s.Sequencer? && c.latest < s.height
    ensures HeightsOk(Pushed(c, ts, s))
  {
    forall h | h in Pushed(c, ts, s).heights ensures Pushed(c, ts, s).heights[h] <= s.height {
      ConfirmAllTxs(c, ts, s.height, h);
    }
  }

  /** The transaction is the one found by its sender and nonce. */
  ghost predicate Found(c: Chain, h: Hash) {
    h in c.txs && (c.txs[h].sender, c.txs[h].nonce) in c.index && c.index[(c.txs[h].sender, c.txs[h].nonce)] == h
  }

  /** Every transaction of an account that issued no sequencer is the one found by its sender and nonce. */
  ghost predicate AllFound(c: Chain, issuers: set<Address>) {
    forall h {:trigger Found(c, h)} :: h in c.txs && c.txs[h].sender !in issuers ==> Found(c, h)
  }

  lemma {:induction false} ConfirmFound(c: Chain, t: Tx, height: nat, issuers: set<Address>)
    requires AllFound(c, issuers) && (t.sender in issuers || (t.sender, t.nonce) !in c.index)
    ensures AllFound(Confirm(c, t, height), issuers)
  {
    var c' := Confirm(c, t, height);
    forall h | h in c'.txs && c'.txs[h].sender !in issuers ensures Found(c', h) {
      if h != t.hash { assert Found(c, h); }
    }
  }

  lemma {:induction false} ConfirmAllFound(c: Chain, ts: seq<Tx>, height: nat, issuers: set<Address>)
    requires AllFound(c, issuers) && (forall i :: 0 <= i < |ts| && ts[i].sender !in issuers ==> (ts[i].sender, ts[i].nonce) !in c.index)
    requires forall i, j :: 0 <= i < j < |ts| ==> (ts[i].sender, ts[i].nonce) != (ts[j].sender, ts[j].nonce)
    ensures AllFound(ConfirmAll(c, ts, height), issuers)
    decreases |ts|
  {
    if ts != [] {
      var front, t := ts[..|ts| - 1], ts[|ts| - 1];
      ConfirmAllFound(c, front, height, issuers);
      ConfirmAllIndex(c, front, height, t.sender, t.nonce);
      ConfirmFound(ConfirmAll(c, front, height), t, height, issuers);
    }
  }

  /** Pushing keeps every transaction found if no account but a sequencer's reuses a nonce. */
  lemma {:induction false} PushedFound(c: Chain, s: Tx, b: Batch, ts: seq<Tx>, issuers: set<Address>)
    requires AllFound(c, issuers) && Indexed(c) && s.Sequencer? && Walk(b, ts)
    requires forall a :: a !in issuers ==> Used(c, a) !! SentBy(ts, a)
    ensures AllFound(Pushed(c, ts, s), issuers + {s.sender})
  {
    forall i | 0 <= i < |ts| && ts[i].sender !in issuers ensures (ts[i].sender, ts[i].nonce) !in c.index {
      UsedIndexed(c, ts[i].sender, ts[i].nonce);
      assert Sent(ts, ts[i].sender, ts[i].nonce);
      assert ts[i].nonce in SentBy(ts, ts[i].sender);
    }
    forall i, j | 0 <= i < j < |ts| ensures (ts[i].sender, ts[i].nonce) != (ts[j].sender, ts[j].nonce) {
      assert Listed(b, ts[i]) && Listed(b, ts[j]);
    }
    ConfirmAllFound(c, ts, s.height, issuers);
    assert AllFound(ConfirmAll(c, ts, s.height), issuers + {s.sender});
    ConfirmFound(ConfirmAll(c, ts, s.height), s, s.height, issuers + {s.sender});
    forall h | h in Pushed(c, ts, s).txs && Pushed(c, ts, s).txs[h].sender !in issuers + {s.sender} ensures Found(Pushed(c, ts, s), h) {
      assert Found(Confirm(ConfirmAll(c, ts, s.height), s, s.height), h);
    }
  }

  /** Every account that issued no sequencer has used one gap-free interval of nonces, each in one transaction. */
  ghost predicate GapFree(c: Chain, issuers: set<Address>) {
    && (forall a {:trigger Used(c, a)} :: a !in issuers ==> Continuous(c.accounts, a, Used(c, a)))
    && AllFound(c, issuers)
  }

  lemma {:induction false} PushedGapFree(c: Chain, s: Tx, elders: Elders, b: Batch, ts: seq<Tx>, issuers: set<Address>)
    requires GapFree(c, issuers) && s.Sequencer? && Indexed(c) && Indexed(Pushed(c, ts, s))
    requires IsBatch(elders, elders.Keys, b) && Accepted(c.accounts, s, elders, b) && Walk(b, ts)
    ensures GapFree(Pushed(c, ts, s), issuers + {s.sender})
    ensures forall a :: a !in issuers ==> Used(c, a) !! SentBy(ts, a)
  {
    forall a | a !in issuers
      ensures Used(c, a) !! SentBy(ts, a)
      ensures a != s.sender ==> Continuous(Pushed(c, ts, s).accounts, a, Used(Pushed(c, ts, s), a))
    {
      StaysContinuous(c.accounts, Used(c, a), s, elders, b, ts, a);
      if a != s.sender { PushedContinuous(c, s, ts, a); }
    }
    PushedFound(c, s, b, ts, issuers);
  }

  lemma {:induction false} PushedContinuous(c: Chain, s: Tx, ts: seq<Tx>, a: Address)
    requires Continuous(Run(c.accounts, ts), a, Used(c, a) + SentBy(ts, a)) && s.Sequencer? && s.sender != a
    requires Indexed(c) && Indexed(Pushed(c, ts, s))
    ensures Continuous(Pushed(c, ts, s).accounts, a, Used(Pushed(c, ts, s), a))
  {
    var c1, c' := ConfirmAll(c, ts, s.height), Pushed(c, ts, s);
    ConfirmAllAccounts(c, ts, s.height);
    UsedAfter(c, s, ts, a);
    ProcessNonce(c1.accounts, s, a);
    StaysIdle(c1.accounts, c'.accounts, a, Used(c', a));
  }

  /** A transaction whose sender reuses no nonce stays confirmed at one height. */
  lemma {:induction false} HeightStays(c: Chain, s: Tx, ts: seq<Tx>, h: Hash)
    requires Indexed(c) && s.Sequencer? && h in c.txs && s.hash != h && Used(c, c.txs[h].sender) !! SentBy(ts, c.txs[h].sender)
    requires forall i :: 0 <= i < |ts| && ts[i].hash == h ==> ts[i] == c.txs[h]
    ensures h in Pushed(c, ts, s).txs && Pushed(c, ts, s).txs[h] == c.txs[h]
    ensures h in Pushed(c, ts, s).heights && Pushed(c, ts, s).heights[h] == c.heights[h]
  {
    var t := c.txs[h];
    assert Spends(c, t.sender, t.nonce, h);
    forall i | 0 <= i < |ts| ensures ts[i].hash != h {
      assert Sent(ts, ts[i].sender, ts[i].nonce);
      assert ts[i].sender == t.sender ==> ts[i].nonce in SentBy(ts, t.sender);
    }
    assert h !in Hashes(ts);
    ConfirmAllTxs(c, ts, s.height, h);
  }

  /** A push confirms the batch and the sequencer at the sequencer's height, and nothing else changes. */
  lemma {:induction false} PushedTxs(c: Chain, ts: seq<Tx>, s: Tx, h: Hash)
    requires s.Sequencer?
    ensures ConfirmedAt(c, Pushed(c, ts, s), Hashes(ts) + {s.hash}, s.height, h) && Pushed(c, ts, s).latest == s.height
    ensures s.hash in Pushed(c, ts, s).txs && Pushed(c, ts, s).txs[s.hash] == s
  {
    ConfirmAllTxs(c, ts, s.height, h);
  }

  /** The sequencer at `k` has height `k`, and is found on the ledger at that height. */
  ghost predicate SeqAt(c: Chain, seqs: seq<Tx>, k: nat)
    requires k < |seqs|
  {
    var s := seqs[k];
    && s.Sequencer? && s.height == k && s.hash in c.txs && c.txs[s.hash] == s && s.hash in c.heights && c.heights[s.hash] == k
  }

  /** The sequencers are numbered from the genesis to the latest. */
  ghost predicate Numbered(c: Chain, seqs: seq<Tx>) {
    |seqs| == c.latest + 1 && forall k {:trigger SeqAt(c, seqs, k)} :: 0 <= k < |seqs| ==> SeqAt(c, seqs, k)
  }

  lemma {:induction false} PushedNumbered(c: Chain, ts: seq<Tx>, s: Tx, seqs: seq<Tx>, content: Hash -> Tx)
    requires Numbered(c, seqs) && Authentic(c, content) && AllAuthentic(ts, content) && s == content(s.hash)
    requires s.Sequencer? && s.height == c.latest + 1 && forall i :: 0 <= i < |ts| ==> ts[i].Normal?
    ensures Numbered(Pushed(c, ts, s), seqs + [s])
  {
    var c', all := Pushed(c, ts, s), seqs + [s];
    forall k | 0 <= k < |all| ensures SeqAt(c', all, k) {
      PushedTxs(c, ts, s, all[k].hash);
      if k < |seqs| {
        assert SeqAt(c, seqs, k) && all[k] == seqs[k] && all[k] == content(all[k].hash);
        assert all[k].hash !in Hashes(ts);
      }
    }
  }

  /** No account is overdrawn. */
  ghost predicate Solvent(acc: Accounts) {
    forall a {:trigger Balance(acc, a)} :: Balance(acc, a) >= 0
  }

  lemma {:induction false} PushedSolvent(c: Chain, s: Tx, elders: Elders, b: Batch, ts: seq<Tx>)
    requires Solvent(c.accounts) && s.Sequencer?
    requires IsBatch(elders, elders.Keys, b) && Accepted(c.accounts, s, elders, b) && Walk(b, ts)
    ensures Solvent(Pushed(c, ts, s).accounts) && Total(Pushed(c, ts, s).accounts) == Total(c.accounts)
  {
    ConfirmAllAccounts(c, ts, s.height);
    assert ts[..|ts|] == ts;
    forall a ensures Balance(Pushed(c, ts, s).accounts, a) >= 0 {
      LedgerSafe(c.accounts, s, elders, b, ts, |ts|, a);
      ProcessBalance(Run(c.accounts, ts), s, a);
    }
    Conserved(c.accounts, ts);
    ProcessTotal(Run(c.accounts, ts), s);
  }

  /** The chain right after its genesis. */
  function Start(genesis: Tx, balances: map<Address, nat>): Chain {
    Chain(map[genesis.hash := genesis], map[genesis.hash := 0], map[(genesis.sender, genesis.nonce) := genesis.hash],
          map a | a in balances :: Account(balances[a], 0), 0)
  }

  lemma {:induction false} StartOk(genesis: Tx, balances: map<Address, nat>)
    ensures Indexed(Start(genesis, balances)) && HeightsOk(Start(genesis, balances)) && Solvent(Start(genesis, balances).accounts)
    ensures GapFree(Start(genesis, balances), {genesis.sender})
  {
    var c := Start(genesis, balances);
    forall a | a !in {genesis.sender} ensures Continuous(c.accounts, a, Used(c, a)) {
      assert Interval(c.accounts, a, Used(c, a), 1);
    }
  }

  // ---------------------------------------------------------------------------
  // The database
  // ---------------------------------------------------------------------------

  /** The addresses of a batch list their own transactions. */
  ghost predicate Shaped(b: Batch) {
    forall a :: a in b ==> KeysOf(b[a]) && forall n :: n in b[a].list ==> b[a].list[n].sender == a && b[a].list[n].nonce == n
  }

  /** The transactions of the addresses in `done`, and of the first `i` nonces of `a`. */
  ghost predicate Walked(b: Batch, done: set<Address>, a: Address, i: nat, t: Tx) {
    Listed(b, t) && (t.sender in done || (t.sender == a && i <= |b[a].keys| && t.nonce in b[a].keys[..i]))
  }

  ghost predicate PartWalk(b: Batch, done: set<Address>, a: Address, i: nat, ts: seq<Tx>) {
    Distinct(ts) && forall t: Tx :: t in ts <==> Walked(b, done, a, i, t)
  }

  lemma {:induction false} WalkNext(b: Batch, done: set<Address>, a: Address, i: nat, ts: seq<Tx>)
    requires Shaped(b) && a in b && a !in done && i < |b[a].keys| && PartWalk(b, done, a, i, ts)
    ensures b[a].keys[i] in b[a].list && PartWalk(b, done, a, i + 1, ts + [b[a].list[b[a].keys[i]]])
  {
    var n := b[a].keys[i];
    assert n in b[a].keys && n in b[a].list;
    var t, keys := b[a].list[n], b[a].keys;
    assert keys[..i + 1] == keys[..i] + [n];
    assert n !in keys[..i];
    assert !Walked(b, done, a, i, t);
    forall u: Tx ensures u in ts + [t] <==> Walked(b, done, a, i + 1, u) {
      assert u in ts <==> Walked(b, done, a, i, u);
    }
  }

  /** All transactions of the addresses in `done`. */
  ghost predicate DoneWalk(b: Batch, done: set<Address>, ts: seq<Tx>) {
    Distinct(ts) && forall t: Tx :: t in ts <==> Listed(b, t) && t.sender in done
  }

  /** A mention of a list, which opens what is said about it below. */
  predicate Mention(ts: seq<Tx>, n: int) {
    true
  }

  /** `DoneWalk`, opened only where the list is mentioned. */
  ghost predicate WalkedAll(b: Batch, done: set<Address>, ts: seq<Tx>) {
    forall n {:trigger Mention(ts, n)} :: Mention(ts, n) ==> DoneWalk(b, done, ts)
  }

  lemma {:induction false} WalkedNone(b: Batch)
    ensures WalkedAll(b, {}, [])
  {
  }

  lemma {:induction false} WalkStart(b: Batch, done: set<Address>, a: Address, ts: seq<Tx>)
    requires WalkedAll(b, done, ts)
    ensures PartWalk(b, done, a, 0, ts)
  {
    assert Mention(ts, 0);
    forall u: Tx ensures u in ts <==> Walked(b, done, a, 0, u) {
      assert u in ts <==> Listed(b, u) && u.sender in done;
    }
  }

  lemma {:induction false} WalkAddress(b: Batch, done: set<Address>, a: Address, ts: seq<Tx>)
    requires Shaped(b) && a in b && PartWalk(b, done, a, |b[a].keys|, ts)
    ensures WalkedAll(b, done + {a}, ts)
  {
    assert b[a].keys[..|b[a].keys|] == b[a].keys;
    forall u: Tx ensures u in ts <==> Listed(b, u) && u.sender in done + {a} {
      assert u in ts <==> Walked(b, done, a, |b[a].keys|, u);
    }
  }

  lemma {:induction false} WalkWhole(b: Batch, ts: seq<Tx>)
    requires Shaped(b) && WalkedAll(b, b.Keys, ts)
    ensures Walk(b, ts)
  {
    assert Mention(ts, 0);
    forall i | 0 <= i < |ts| ensures Listed(b, ts[i]) {
      assert ts[i] in ts;
    }
    forall x, n | x in b && n in b[x].list ensures b[x].list[n] in ts {
      assert Listed(b, b[x].list[n]) && b[x].list[n].sender in b.Keys;
    }
  }

  /** A mention of the cache's order, which opens what is said about it below. */
  predicate InLine(order: seq<Hash>, n: int) {
    true
  }

  /** One element goes from one set to the other. */
  lemma {:induction false} OneOver(rest: set<Address>, done: set<Address>, all: set<Address>, a: Address)
    requires rest !! done && rest + done == all && a in rest
    ensures (rest - {a}) !! (done + {a}) && (rest - {a}) + (done + {a}) == all && |rest - {a}| < |rest| && a !in done && a in all
  {
  }

  class Store {
    var txs: map<Hash, Tx>
    var heights: map<Hash, nat>
    var index: map<(Address, nat), Hash>
    var accounts: Accounts
    var latest: nat
    var cached: map<Hash, Tx>
    var cachedOrder: seq<Hash>
    const maxsize: nat

    /** A hash determines its transaction. */
    ghost const content: Hash -> Tx

    function St(): Chain
      reads this`txs, this`heights, this`index, this`accounts, this`latest
    {
      Chain(txs, heights, index, accounts, latest)
    }

    /** A chain that starts with a genesis sequencer at height 0 and the given balances. */
    constructor (genesis: Tx, balances: map<Address, nat>, maxsize: nat, ghost content: Hash -> Tx)
      requires genesis.Sequencer? && genesis.height == 0 && genesis == content(genesis.hash) && 0 < maxsize
      ensures CacheOk() && this.content == content && St() == Start(genesis, balances)
    {
      txs, heights, index := map[genesis.hash := genesis], map[genesis.hash := 0], map[(genesis.sender, genesis.nonce) := genesis.hash];
      accounts := map a | a in balances :: Account(balances[a], 0);
      latest := 0;
      cached, cachedOrder := map[genesis.hash := genesis], [genesis.hash];
      this.maxsize, this.content := maxsize, content;
    }

    /** The cache holds some of the latest transactions, each once, and never more than its size. */
    ghost predicate CacheFits()
      reads this`txs, this`cached, this`cachedOrder
    {
      && 0 < maxsize && |cachedOrder| <= maxsize
      && (forall h :: h in txs ==> txs[h] == content(h))
      && (forall h :: h in cached <==> h in cachedOrder)
      && (forall i, j :: 0 <= i < j < |cachedOrder| ==> cachedOrder[i] != cachedOrder[j])
      && (forall h :: h in cached ==> h in txs && txs[h] == cached[h])
    }

    /** `CacheFits`, opened only where the cache is looked at. */
    ghost predicate CacheOk()
      reads this`txs, this`cached, this`cachedOrder
    {
      forall n {:trigger InLine(cachedOrder, n)} :: InLine(cachedOrder, n) ==> CacheFits()
    }

    lemma {:induction false} OpenCache()
      requires CacheOk()
      ensures CacheFits()
    {
      assert InLine(cachedOrder, 0);
    }

    /** Reading through the cache is reading the database. */
    method GetTx(h: Hash) returns (found: bool, t: Tx)
      requires CacheOk()
      ensures found <==> h in txs
      ensures found ==> t == txs[h]
    {
      OpenCache();
      if h in cached { return true, cached[h]; }
      if h in txs { return true, txs[h]; }
      return false, Normal(0, 0, 0, [], 0, 0);
    }

    /** Forgets the oldest cached transaction when the cache is full. */
    method Cache(t: Tx)
      requires CacheOk() && t.hash in txs && t == content(t.hash)
      modifies this`cached, this`cachedOrder
      ensures CacheOk() && 0 < maxsize && t.hash in cached
      ensures cachedOrder == if t.hash in old(cached) then old(cachedOrder)
                             else (if old(|cachedOrder|) >= maxsize then old(cachedOrder)[1..] else old(cachedOrder)) + [t.hash]
    {
      OpenCache();
      if t.hash in cached { return; }
      if |cachedOrder| >= maxsize {
        cached := cached - {cachedOrder[0]};
        cachedOrder := cachedOrder[1..];
      }
      cachedOrder := cachedOrder + [t.hash];
      cached := cached[t.hash := t];
    }

    method WriteTransaction(t: Tx, height: nat)
      requires CacheOk() && t == content(t.hash)
      modifies this`txs, this`heights, this`index, this`cached, this`cachedOrder
      ensures CacheOk() && txs == old(txs)[t.hash := t] && heights == old(heights)[t.hash := height]
      ensures index == old(index)[(t.sender, t.nonce) := t.hash]
    {
      OpenCache();
      index := index[(t.sender, t.nonce) := t.hash];
      txs := txs[t.hash := t];
      heights := heights[t.hash := height];
      Cache(t);
    }

    method ProcessTransaction(t: Tx)
      modifies this`accounts
      ensures accounts == Process(old(accounts), t)
    {
      if t.sender !in accounts || t.nonce > accounts[t.sender].nonce {
        accounts := accounts[t.sender := Account(Balance(accounts, t.sender), t.nonce)];
      }
      if t.Normal? && t.value != 0 {
        accounts := accounts[t.sender := Account(Balance(accounts, t.sender) - t.value, Nonce(accounts, t.sender))];
        accounts := accounts[t.to := Account(Balance(accounts, t.to) + t.value, Nonce(accounts, t.to))];
      }
    }

    method ConfirmTx(t: Tx, height: nat)
      requires CacheOk() && t == content(t.hash)
      modifies this`txs, this`heights, this`index, this`accounts, this`cached, this`cachedOrder
      ensures CacheOk() && St() == Confirm(old(St()), t, height)
    {
      WriteTransaction(t, height);
      ProcessTransaction(t);
    }

    ghost predicate Genuine(b: Batch) {
      forall t: Tx :: Listed(b, t) ==> t == content(t.hash)
    }

    /** All transactions of one address. */
    method PushAddress(b: Batch, a: Address, height: nat, ghost done: set<Address>, ghost ts0: seq<Tx>, ghost c: Chain) returns (ghost ts: seq<Tx>)
      requires CacheOk() && Shaped(b) && Genuine(b) && a in b && a !in done && WalkedAll(b, done, ts0)
      requires St() == ConfirmAll(c, ts0, height)
      modifies this`txs, this`heights, this`index, this`accounts, this`cached, this`cachedOrder
      ensures CacheOk() && WalkedAll(b, done + {a}, ts) && St() == ConfirmAll(c, ts, height)
    {
      ts := ts0;
      WalkStart(b, done, a, ts);
      var i := 0;
      while i < |b[a].keys|
        invariant 0 <= i <= |b[a].keys| && CacheOk() && PartWalk(b, done, a, i, ts)
        invariant St() == ConfirmAll(c, ts, height)
      {
        WalkNext(b, done, a, i, ts);
        var t := b[a].list[b[a].keys[i]];
        assert Listed(b, t);
        ConfirmTx(t, height);
        assert (ts + [t])[..|ts|] == ts;
        ts := ts + [t];
        i := i + 1;
      }
      WalkAddress(b, done, a, ts);
    }

    /** All addresses of the batch, in any order. */
    method PushBatch(b: Batch, height: nat) returns (ghost ts: seq<Tx>)
      requires CacheOk() && Shaped(b) && Genuine(b)
      modifies this`txs, this`heights, this`index, this`accounts, this`cached, this`cachedOrder
      ensures CacheOk() && Walk(b, ts) && St() == ConfirmAll(old(St()), ts, height)
    {
      ts := [];
      WalkedNone(b);
      var rest := b.Keys;
      ghost var c, done: set<Address> := St(), {};
      while rest != {}
        invariant CacheOk() && rest !! done && rest + done == b.Keys
        invariant WalkedAll(b, done, ts) && St() == ConfirmAll(c, ts, height)
        decreases |rest|
      {
        var a :| a in rest;
        OneOver(rest, done, b.Keys, a);
        ts := PushAddress(b, a, height, done, ts, c);
        rest, done := rest - {a}, done + {a};
      }
      assert done == b.Keys;
      WalkWhole(b, ts);
    }

    /** Confirms a batch and then its sequencer; refuses a sequencer that is not the next one. */
    method Push(b: Batch, s: Tx) returns (ok: bool, ghost ts: seq<Tx>)
      requires CacheOk() && Shaped(b) && Genuine(b) && s.Sequencer? && s == content(s.hash)
      modifies this`txs, this`heights, this`index, this`accounts, this`latest, this`cached, this`cachedOrder
      ensures ok <==> old(latest) + 1 == s.height
      ensures CacheOk()
      ensures ok ==> Walk(b, ts) && St() == Pushed(old(St()), ts, s)
      ensures ok ==> latest == s.height && s.hash in txs && txs[s.hash] == s
      ensures ok ==> forall h :: ConfirmedAt(old(St()), St(), Hashes(ts) + {s.hash}, s.height, h)
      ensures !ok ==> St() == old(St())
    {
      ts := [];
      if latest + 1 != s.height { return false, ts; }
      ts := PushBatch(b, s.height);
      ConfirmTx(s, s.height);
      latest := s.height;
      forall h ensures ConfirmedAt(old(St()), St(), Hashes(ts) + {s.hash}, s.height, h) { PushedTxs(old(St()), ts, s, h); }
      ok := true;
    }
  }
}
