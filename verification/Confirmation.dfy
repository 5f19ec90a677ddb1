/**
 What a successful confirmation does (core/tx_pool.go, core/dag.go), put together from the elder
 search, the batch, the push and the rejudgement of what stays in the pool.
 */
module Confirmation {
  import opened Ledger
  import opened Batches
  import opened BatchBuilder
  import opened Dag
  import opened PoolState
  import opened PoolSteps
  import opened ElderSearch

  /** The elders of a sequencer: the pooled transactions in its past. */
  ghost predicate IsPast(p: Pool, s: Tx, elders: Elders) {
    && (forall h :: h in elders <==> Reached(p, s.parents, h) && h in p.lookup)
    && (forall h :: h in elders ==> elders[h] == p.lookup[h].tx)
  }

  /** The pooled transactions in the past of a sequencer. */
  ghost function PastOf(p: Pool, s: Tx): Elders {
    map h | h in p.lookup && Reached(p, s.parents, h) :: p.lookup[h].tx
  }

  lemma {:induction false} PastIs(p: Pool, s: Tx, elders: Elders)
    requires IsPast(p, s, elders)
    ensures elders == PastOf(p, s)
  {
  }

  /** Everything in the sequencer's past is pooled or confirmed. */
  ghost predicate PastKnown(p: Pool, c: Chain, s: Tx) {
    forall h :: Reached(p, s.parents, h) ==> h in p.lookup || h in c.txs
  }

  /**
   Exactly when a sequencer is confirmed: its nonce is unused, its past is known, the batch of
   that past can be confirmed, and it is the next one.  It is in the lookup while it is judged.
   */
  ghost predicate Acceptable(p: Pool, c: Chain, s: Tx)
    requires s.Sequencer?
  {
    && (s.sender, s.nonce) !in c.index && PastKnown(Queued(p, s), c, s)
    && Confirmable(c.accounts, s, PastOf(Queued(p, s), s)) && c.latest + 1 == s.height
  }

  /** The sequencer's own entry in the lookup does not change its past. */
  lemma {:induction false} PastQueued(p: Pool, s: Tx, elders: Elders)
    requires s.hash !in p.lookup && s.hash !in elders && IsPast(Queued(p, s), s, elders)
    ensures IsPast(p, s, elders)
  {
    var q := Queued(p, s);
    forall h ensures Reached(p, s.parents, h) <==> Reached(q, s.parents, h) {
      if Reached(p, s.parents, h) {
        var path :| Path(p, s.parents, path) && path[|path| - 1] == h;
        forall i | 0 < i < |path| ensures Parent(q, path[i - 1], path[i]) { assert Parent(p, path[i - 1], path[i]); }
        assert Path(q, s.parents, path);
      }
      if Reached(q, s.parents, h) {
        var path :| Path(q, s.parents, path) && path[|path| - 1] == h;
        forall i | 0 < i < |path| ensures Parent(p, path[i - 1], path[i]) {
          assert Parent(q, path[i - 1], path[i]);
          PrefixReached(q, s.parents, path, i - 1);
        }
        assert Path(p, s.parents, path);
      }
    }
  }

  lemma {:induction false} PrefixReached(p: Pool, start: seq<Hash>, path: seq<Hash>, k: nat)
    requires Path(p, start, path) && k < |path|
    ensures Reached(p, start, path[k])
  {
    var short := path[..k + 1];
    forall i | 0 < i < |short| ensures Parent(p, short[i - 1], short[i]) { assert Parent(p, path[i - 1], path[i]); }
    assert Path(p, start, short) && short[|short| - 1] == path[k];
  }

  lemma {:induction false} PastHashed(p: Pool, c: Chain, s: Tx, elders: Elders)
    requires LookupOk(p, c) && s.hash !in p.lookup && IsPast(Queued(p, s), s, elders)
    ensures Hashed(elders)
  {
  }

  lemma {:induction false} BatchShaped(elders: Elders, b: Batch)
    requires IsBatch(elders, elders.Keys, b)
    ensures Shaped(b) && forall t: Tx :: Listed(b, t) ==> Has(elders, elders.Keys, t)
  {
    forall a | a in b ensures KeysOf(b[a]) && forall n :: n in b[a].list ==> b[a].list[n].sender == a && b[a].list[n].nonce == n {
      assert DetailOk(elders, elders.Keys, a, b[a]);
    }
    forall t: Tx | Listed(b, t) ensures Has(elders, elders.Keys, t) {
      assert DetailOk(elders, elders.Keys, t.sender, b[t.sender]);
    }
  }

  /** The new ledger is indexed, solvent and gap-free, and holds the sequencer. */
  lemma {:induction false} LedgerKept(c: Chain, s: Tx, elders: Elders, b: Batch, ts: seq<Tx>, issuers: set<Address>, content: Hash -> Tx)
    requires Indexed(c) && Solvent(c.accounts) && GapFree(c, issuers) && s.Sequencer?
    requires Authentic(c, content) && AllAuthentic(ts, content) && s == content(s.hash)
    requires IsBatch(elders, elders.Keys, b) && Batches.Accepted(c.accounts, s, elders, b) && Walk(b, ts)
    ensures Indexed(Pushed(c, ts, s)) && Authentic(Pushed(c, ts, s), content) && Solvent(Pushed(c, ts, s).accounts)
    ensures GapFree(Pushed(c, ts, s), issuers + {s.sender}) && (s.sender, s.nonce) in Pushed(c, ts, s).index
  {
    PushedIndexed(c, ts, s, content);
    PushedGapFree(c, s, elders, b, ts, issuers);
    PushedSolvent(c, s, elders, b, ts);
  }

  /** An elder is confirmed at the sequencer's height exactly if the push walks it. */
  lemma {:induction false} ElderHeight(c: Chain, s: Tx, ts: seq<Tx>, h: Hash)
    requires HeightsOk(c) && s.Sequencer? && c.latest < s.height && h != s.hash
    ensures ConfirmedBy(Pushed(c, ts, s), s, h) <==> h in Hashes(ts)
  {
    ConfirmAllTxs(c, ts, s.height, h);
  }

  /** `h` is on the ledger at the height of the sequencer. */
  ghost predicate ConfirmedBy(c: Chain, s: Tx, h: Hash)
    requires s.Sequencer?
  {
    h in c.txs && h in c.heights && c.heights[h] == s.height
  }

  /** What stays is judged again on the new ledger, and the sequencer joins the tips. */
  function After(p: Pool, c': Chain, s: Tx, elders: set<Hash>): Pool {
    SeqEnters(EnterAll(EMPTY, c', Survivors(p, p.order, elders)), c', s)
  }

  /** Normal, distinct and genuine transactions, which can be entered one after the other. */
  ghost predicate Clean(c: Chain, ts: seq<Tx>) {
    && Indexed(c) && AllNormal(ts) && DistinctHashes(ts)
    && forall i :: 0 <= i < |ts| ==> ts[i].hash !in ts[i].parents && (ts[i].hash in c.txs ==> c.txs[ts[i].hash] == ts[i])
  }

  /** `Clean`, opened only where the list is mentioned. */
  ghost predicate Enterable(c: Chain, ts: seq<Tx>) {
    forall n {:trigger Mention(ts, n)} :: Mention(ts, n) ==> Clean(c, ts)
  }

  lemma {:induction false} OpenEnterable(c: Chain, ts: seq<Tx>)
    requires Enterable(c, ts)
    ensures Clean(c, ts)
  {
    assert Mention(ts, 0);
  }

  lemma {:induction false} CleanPrefix(c: Chain, ts: seq<Tx>, k: nat)
    requires Clean(c, ts) && k <= |ts|
    ensures Clean(c, ts[..k])
  {
  }

  lemma {:induction false} CleanNew(c: Chain, ts: seq<Tx>, k: nat)
    requires Clean(c, ts) && k < |ts|
    ensures New(EnterAll(EMPTY, c, ts[..k]), ts[k])
  {
    CleanPrefix(c, ts, k);
    forall h | h in EnterAll(EMPTY, c, ts[..k]).lookup ensures h != ts[k].hash {
      EnterAllKeys(c, ts[..k], h);
      var i :| 0 <= i < |ts[..k]| && ts[..k][i].hash == h;
      assert ts[i].hash == h;
    }
  }

  lemma {:induction false} EnterablePrefix(c: Chain, ts: seq<Tx>, k: nat)
    requires Enterable(c, ts) && k < |ts|
    ensures Steady(EnterAll(EMPTY, c, ts[..k])) && New(EnterAll(EMPTY, c, ts[..k]), ts[k])
    ensures EnterAll(EMPTY, c, ts[..k + 1]) == Enter(EnterAll(EMPTY, c, ts[..k]), c, ts[k])
  {
    OpenEnterable(c, ts);
    CleanNew(c, ts, k);
    CleanPrefix(c, ts, k);
    EnterAllInv(c, ts[..k]);
    assert ts[..k + 1][..k] == ts[..k] && ts[..k + 1][k] == ts[k];
  }

  /** What is judged again was in the pool and is no elder. */
  lemma {:induction false} RejudgedKeys(p: Pool, c: Chain, c': Chain, s: Tx, elders: set<Hash>, h: Hash)
    requires LookupOk(p, c) && OrderOk(p) && s.hash !in p.lookup && s.Sequencer? && AllNormal(Survivors(Queued(p, s), Queued(p, s).order, elders))
    requires h in EnterAll(EMPTY, c', Survivors(Queued(p, s), Queued(p, s).order, elders)).lookup
    ensures h in p.lookup && h !in elders && EnterAll(EMPTY, c', Survivors(Queued(p, s), Queued(p, s).order, elders)).lookup[h].tx == p.lookup[h].tx
  {
    var ts := Survivors(Queued(p, s), Queued(p, s).order, elders);
    SurvivorsOfQueued(p, c, s, elders);
    EnterAllKeys(c', ts, h);
    var i :| 0 <= i < |ts| && ts[i].hash == h && ts[i] == EnterAll(EMPTY, c', ts).lookup[h].tx;
    assert Stays(p, elders, ts[i]);
  }

  /** The pool after a confirmation: nothing in it is an elder, and the sequencer is a tip but not in the lookup. */
  ghost predicate Confirmed(p: Pool, r: Pool, s: Tx, elders: set<Hash>) {
    && (forall h :: h in r.lookup ==> h in p.lookup && r.lookup[h].tx == p.lookup[h].tx && h !in elders)
    && s.hash in r.tips && s.hash !in r.lookup
  }

  lemma {:induction false} AfterConfirmed(p: Pool, c: Chain, c': Chain, s: Tx, elders: set<Hash>)
    requires LookupOk(p, c) && OrderOk(p) && s.hash !in p.lookup && s.Sequencer?
    requires AllNormal(Survivors(Queued(p, s), Queued(p, s).order, elders))
    ensures Confirmed(p, After(Queued(p, s), c', s, elders), s, elders)
  {
    var r := EnterAll(EMPTY, c', Survivors(Queued(p, s), Queued(p, s).order, elders));
    forall h | h in r.lookup ensures h in p.lookup && h !in elders && r.lookup[h].tx == p.lookup[h].tx {
      RejudgedKeys(p, c, c', s, elders, h);
    }
  }

  lemma {:induction false} AfterInv(p: Pool, c: Chain, c': Chain, s: Tx, elders: set<Hash>)
    requires LookupOk(p, c) && OrderOk(p) && s.hash !in p.lookup && s.Sequencer?
    requires (s.sender, s.nonce) in c'.index && Balance(c'.accounts, s.sender) >= 0
    requires Clean(c', Survivors(Queued(p, s), Queued(p, s).order, elders))
    ensures Inv(After(Queued(p, s), c', s, elders), c') && Confirmed(p, After(Queued(p, s), c', s, elders), s, elders)
  {
    AfterConfirmed(p, c, c', s, elders);
    EnterAllInv(c', Survivors(Queued(p, s), Queued(p, s).order, elders));
    SeqEntersInv(EnterAll(EMPTY, c', Survivors(Queued(p, s), Queued(p, s).order, elders)), c', s);
  }

  ghost predicate Stays(p: Pool, elders: set<Hash>, t: Tx) {
    t.hash in p.lookup && t == p.lookup[t.hash].tx && t.hash !in elders && t.Normal?
  }

  lemma {:induction false} SurvivorsOfQueued(p: Pool, c: Chain, s: Tx, elders: set<Hash>)
    requires LookupOk(p, c) && OrderOk(p) && s.hash !in p.lookup && s.Sequencer?
    ensures var ts := Survivors(Queued(p, s), Queued(p, s).order, elders);
            AllNormal(ts) && DistinctHashes(ts) && forall i :: 0 <= i < |ts| ==> Stays(p, elders, ts[i])
  {
    var q := Queued(p, s);
    assert s.hash !in p.order;
    SurvivorsGood(q, q.order, elders);
    var ts := Survivors(q, q.order, elders);
    forall i | 0 <= i < |ts| ensures Stays(p, elders, ts[i]) {
      assert Stays(q, elders, ts[i]);
    }
  }

  lemma {:induction false} SurvivorsGood(p: Pool, order: seq<Hash>, elders: set<Hash>)
    requires NoRepeats(order) && forall h :: h in p.lookup ==> p.lookup[h].tx.hash == h
    ensures var ts := Survivors(p, order, elders);
            && AllNormal(ts) && DistinctHashes(ts)
            && forall i :: 0 <= i < |ts| ==> Stays(p, elders, ts[i]) && ts[i].hash in order
    decreases |order|
  {
    if order != [] {
      var front, h := order[..|order| - 1], order[|order| - 1];
      assert order == front + [h] && h !in front;
      SurvivorsGood(p, front, elders);
    }
  }

  /** Genuine transactions can be judged again on any ledger of genuine transactions. */
  lemma {:induction false} SurvivorsEnterable(p: Pool, c: Chain, c': Chain, s: Tx, elders: set<Hash>, content: Hash -> Tx)
    requires LookupOk(p, c) && OrderOk(p) && s.hash !in p.lookup && s.Sequencer? && Indexed(c')
    requires forall h :: h in p.lookup ==> p.lookup[h].tx == content(h) && h !in p.lookup[h].tx.parents
    requires Authentic(c', content)
    ensures Clean(c', Survivors(Queued(p, s), Queued(p, s).order, elders))
  {
    var ts := Survivors(Queued(p, s), Queued(p, s).order, elders);
    SurvivorsOfQueued(p, c, s, elders);
    forall i | 0 <= i < |ts| ensures ts[i].hash !in ts[i].parents && (ts[i].hash in c'.txs ==> c'.txs[ts[i].hash] == ts[i]) {
      assert Stays(p, elders, ts[i]);
    }
  }

  // ---------------------------------------------------------------------------
  // Whole states
  // ---------------------------------------------------------------------------

  /** A hash determines its transaction, and no transaction contains its own hash. */
  ghost predicate Genuine(t: Tx, content: Hash -> Tx) {
    t == content(t.hash) && t.hash !in t.parents
  }

  /** What holds between events: the pool's invariant, and an indexed, solvent and gap-free ledger. */
  ghost predicate Healthy(p: Pool, c: Chain, issuers: set<Address>, content: Hash -> Tx) {
    && Inv(p, c) && Indexed(c) && HeightsOk(c) && Solvent(c.accounts) && GapFree(c, issuers) && Authentic(c, content)
    && (forall h :: h in p.lookup ==> Genuine(p.lookup[h].tx, content))
  }

  /** A mention of a state, which opens what is said about it below. */
  predicate Look(p: Pool, c: Chain, n: int) {
    true
  }

  /** `Healthy`, opened only where the state is looked at. */
  ghost predicate PoolOk(p: Pool, c: Chain, issuers: set<Address>, content: Hash -> Tx) {
    forall n {:trigger Look(p, c, n)} :: Look(p, c, n) ==> Healthy(p, c, issuers, content)
  }

  /** The elders are the sequencer's past, and their batch is accepted. */
  ghost predicate Plan(p: Pool, c: Chain, s: Tx, elders: Elders, b: Batch) {
    IsPast(p, s, elders) && Hashed(elders) && IsBatch(elders, elders.Keys, b) && Batches.Accepted(c.accounts, s, elders, b)
  }

  /** `Plan`, opened only where the state is looked at. */
  ghost predicate Planned(p: Pool, c: Chain, s: Tx, elders: Elders, b: Batch) {
    forall n {:trigger Look(p, c, n)} :: Look(p, c, n) ==> Plan(p, c, s, elders, b)
  }

  lemma {:induction false} OpenPool(p: Pool, c: Chain, issuers: set<Address>, content: Hash -> Tx)
    requires PoolOk(p, c, issuers, content)
    ensures Healthy(p, c, issuers, content)
  {
    assert Look(p, c, 0);
  }

  lemma {:induction false} OpenPlan(p: Pool, c: Chain, s: Tx, elders: Elders, b: Batch)
    requires Planned(p, c, s, elders, b)
    ensures Plan(p, c, s, elders, b)
  {
    assert Look(p, c, 0);
  }

  lemma {:induction false} StartPool(c: Chain, genesis: Tx, balances: map<Address, nat>, content: Hash -> Tx)
    requires c == Start(genesis, balances) && genesis.Sequencer? && Genuine(genesis, content)
    ensures PoolOk(Pool(map[genesis.hash := Env(genesis, Tip)], [genesis.hash], map[genesis.hash := genesis], map[], map[], map[]), c, {genesis.sender}, content)
  {
    StartOk(genesis, balances);
    GenesisInv(c, genesis);
  }

  lemma {:induction false} GenesisInv(c: Chain, genesis: Tx)
    requires genesis.Sequencer? && genesis.hash in c.txs
    ensures Inv(Pool(map[genesis.hash := Env(genesis, Tip)], [genesis.hash], map[genesis.hash := genesis], map[], map[], map[]), c)
  {
    var p := Pool(map[genesis.hash := Env(genesis, Tip)], [genesis.hash], map[genesis.hash := genesis], map[], map[], map[]);
    assert OrderOk(p) && LookupOk(p, c);
    assert TipsOk(p) && PendingOk(p) && BadOk(p);
    forall h ensures !Good(p, h) {}
  }

  /** A transaction that the pool does not know can be committed. */
  lemma {:induction false} CanCommit(p: Pool, c: Chain, issuers: set<Address>, content: Hash -> Tx, t: Tx)
    requires PoolOk(p, c, issuers, content) && t.Normal? && Genuine(t, content) && t.hash !in p.lookup
    ensures New(p, t) && Steady(p)
  {
    OpenPool(p, c, issuers, content);
  }

  lemma {:induction false} PoolSteady(p: Pool, c: Chain, issuers: set<Address>, content: Hash -> Tx)
    requires PoolOk(p, c, issuers, content)
    ensures Steady(p)
  {
    OpenPool(p, c, issuers, content);
  }

  /** Every transaction event keeps the state healthy. */
  lemma {:induction false} EnterOk(p: Pool, c: Chain, issuers: set<Address>, content: Hash -> Tx, t: Tx)
    requires PoolOk(p, c, issuers, content) && t.Normal? && Genuine(t, content) && t.hash !in p.lookup
    ensures PoolOk(Enter(p, c, t), c, issuers, content)
  {
    OpenPool(p, c, issuers, content);
    EnterInv(p, c, t);
    forall h | h in Enter(p, c, t).lookup ensures Genuine(Enter(p, c, t).lookup[h].tx, content) { EnterTxs(p, c, t, h); }
  }

  /** A planned batch can be pushed. */
  lemma {:induction false} CanPush(p: Pool, c: Chain, issuers: set<Address>, content: Hash -> Tx, s: Tx, elders: Elders, b: Batch)
    requires PoolOk(p, c, issuers, content) && Planned(p, c, s, elders, b)
    ensures Shaped(b) && forall t: Tx :: Listed(b, t) ==> t == content(t.hash)
  {
    OpenPool(p, c, issuers, content);
    OpenPlan(p, c, s, elders, b);
    BatchShaped(elders, b);
    forall t: Tx | Listed(b, t) ensures t == content(t.hash) { assert Has(elders, elders.Keys, t); }
  }

  /** Pushing keeps the ledger indexed, solvent, gap-free and genuine. */
  lemma {:induction false} PushOk(p: Pool, c: Chain, issuers: set<Address>, content: Hash -> Tx, s: Tx, elders: Elders, b: Batch, ts: seq<Tx>)
    requires PoolOk(p, c, issuers, content) && Planned(p, c, s, elders, b) && Walk(b, ts) && s.Sequencer? && s == content(s.hash)
    requires c.latest < s.height
    ensures Indexed(Pushed(c, ts, s)) && HeightsOk(Pushed(c, ts, s)) && Solvent(Pushed(c, ts, s).accounts) && Authentic(Pushed(c, ts, s), content)
    ensures GapFree(Pushed(c, ts, s), issuers + {s.sender}) && (s.sender, s.nonce) in Pushed(c, ts, s).index
  {
    CanPush(p, c, issuers, content, s, elders, b);
    OpenPool(p, c, issuers, content);
    OpenPlan(p, c, s, elders, b);
    forall i | 0 <= i < |ts| ensures ts[i] == content(ts[i].hash) { assert Listed(b, ts[i]); }
    LedgerKept(c, s, elders, b, ts, issuers, content);
    PushedHeights(c, s, ts);
  }

  /** What stays in the pool can be judged again on the new ledger. */
  lemma {:induction false} CanRejudge(p: Pool, c: Chain, issuers: set<Address>, content: Hash -> Tx, s: Tx, elders: Elders, b: Batch, ts: seq<Tx>)
    requires PoolOk(p, c, issuers, content) && Planned(p, c, s, elders, b) && Walk(b, ts) && s.Sequencer? && s == content(s.hash) && s.hash !in p.lookup && c.latest < s.height
    ensures Enterable(Pushed(c, ts, s), Survivors(Queued(p, s), Queued(p, s).order, elders.Keys))
  {
    PushOk(p, c, issuers, content, s, elders, b, ts);
    OpenPool(p, c, issuers, content);
    SurvivorsEnterable(p, c, Pushed(c, ts, s), s, elders.Keys, content);
  }

  /** The new state is healthy if the pool is sound, the ledger is, and the pool holds only what it held. */
  lemma {:induction false} ClosePool(p: Pool, r: Pool, c': Chain, issuers: set<Address>, content: Hash -> Tx, s: Tx, elders: set<Hash>)
    requires Inv(r, c') && Indexed(c') && HeightsOk(c') && Solvent(c'.accounts) && GapFree(c', issuers) && Confirmed(p, r, s, elders)
    requires forall h :: h in p.lookup ==> Genuine(p.lookup[h].tx, content)
    requires Authentic(c', content)
    ensures PoolOk(r, c', issuers, content)
  {
  }

  lemma {:induction false} AfterOk(p: Pool, c: Chain, c': Chain, issuers: set<Address>, content: Hash -> Tx, s: Tx, elders: set<Hash>)
    requires LookupOk(p, c) && OrderOk(p) && s.hash !in p.lookup && s.Sequencer? && (s.sender, s.nonce) in c'.index
    requires Indexed(c') && HeightsOk(c') && Solvent(c'.accounts) && GapFree(c', issuers)
    requires forall h :: h in p.lookup ==> Genuine(p.lookup[h].tx, content)
    requires Authentic(c', content)
    ensures PoolOk(After(Queued(p, s), c', s, elders), c', issuers, content)
    ensures Confirmed(p, After(Queued(p, s), c', s, elders), s, elders)
  {
    SurvivorsEnterable(p, c, c', s, elders, content);
    assert Balance(c'.accounts, s.sender) >= 0;
    AfterInv(p, c, c', s, elders);
    ClosePool(p, After(Queued(p, s), c', s, elders), c', issuers, content, s, elders);
  }

  /** Every accepted sequencer keeps the state healthy, and takes its past out of the pool. */
  lemma {:induction false} ConfirmOk(p: Pool, c: Chain, issuers: set<Address>, content: Hash -> Tx, s: Tx, elders: Elders, b: Batch, ts: seq<Tx>)
    requires PoolOk(p, c, issuers, content) && Planned(p, c, s, elders, b) && Walk(b, ts) && s.Sequencer? && s == content(s.hash) && s.hash !in p.lookup && c.latest < s.height
    ensures PoolOk(After(Queued(p, s), Pushed(c, ts, s), s, elders.Keys), Pushed(c, ts, s), issuers + {s.sender}, content)
    ensures Confirmed(p, After(Queued(p, s), Pushed(c, ts, s), s, elders.Keys), s, elders.Keys)
  {
    PushOk(p, c, issuers, content, s, elders, b, ts);
    OpenPool(p, c, issuers, content);
    AfterOk(p, c, Pushed(c, ts, s), issuers + {s.sender}, content, s, elders.Keys);
  }

  /**
   What an accepted sequencer does, from one state to the next: its elders are its past, their
   batch is accepted and is pushed in some order, the elders leave the pool, and the rest of it is
   judged again on the new ledger.
   */
  ghost predicate Moves(p: Pool, c: Chain, s: Tx, elders: Elders, b: Batch, ts: seq<Tx>, p': Pool, c': Chain) {
    && s.Sequencer? && s.hash !in p.lookup && c.latest + 1 == s.height && Plan(p, c, s, elders, b) && Walk(b, ts)
    && c' == Pushed(c, ts, s) && p' == After(Queued(p, s), c', s, elders.Keys) && Confirmed(p, p', s, elders.Keys)
  }

  /** `Moves`, opened only where the old state is looked at. */
  ghost predicate MovesOk(p: Pool, c: Chain, s: Tx, elders: Elders, b: Batch, ts: seq<Tx>, p': Pool, c': Chain) {
    forall n {:trigger Look(p, c, n)} :: Look(p, c, n) ==> Moves(p, c, s, elders, b, ts, p', c')
  }

  lemma {:induction false} CloseMoves(p: Pool, c: Chain, s: Tx, elders: Elders, b: Batch, ts: seq<Tx>, p': Pool, c': Chain)
    requires s.Sequencer? && s.hash !in p.lookup && c.latest + 1 == s.height && Planned(p, c, s, elders, b) && Walk(b, ts)
    requires c' == Pushed(c, ts, s) && p' == After(Queued(p, s), c', s, elders.Keys) && Confirmed(p, p', s, elders.Keys)
    ensures MovesOk(p, c, s, elders, b, ts, p', c')
  {
    OpenPlan(p, c, s, elders, b);
  }

  lemma {:induction false} OpenMoves(p: Pool, c: Chain, s: Tx, elders: Elders, b: Batch, ts: seq<Tx>, p': Pool, c': Chain)
    requires MovesOk(p, c, s, elders, b, ts, p', c')
    ensures Moves(p, c, s, elders, b, ts, p', c')
  {
    assert Look(p, c, 0);
  }

  // ---------------------------------------------------------------------------
  // What a confirmation means
  // ---------------------------------------------------------------------------

  /** The past of the sequencer, and nothing else that the sequencer confirms, leaves the pool; nothing new comes in. */
  lemma {:induction false} PastLeaves(p: Pool, c: Chain, s: Tx, elders: Elders, b: Batch, ts: seq<Tx>, p': Pool, c': Chain, h: Hash)
    requires MovesOk(p, c, s, elders, b, ts, p', c')
    ensures ElderSearch.Reached(p, s.parents, h) ==> h !in p'.lookup
    ensures h in p'.lookup ==> h in p.lookup && p'.lookup[h].tx == p.lookup[h].tx
  {
    OpenMoves(p, c, s, elders, b, ts, p', c');
  }

  /**
   The whole normal past of an accepted sequencer is confirmed at its height exactly when no two
   transactions of it share a sender and a nonce.
   */
  lemma {:induction false} PastConfirmed(p: Pool, c: Chain, issuers: set<Address>, content: Hash -> Tx, s: Tx, elders: Elders, b: Batch, ts: seq<Tx>, p': Pool, c': Chain)
    requires PoolOk(p, c, issuers, content) && MovesOk(p, c, s, elders, b, ts, p', c') && s.Sequencer?
    ensures (forall h :: InPast(p, s, h) ==> ConfirmedBy(c', s, h)) <==> DistinctPairs(elders)
    ensures elders == PastOf(p, s)
  {
    PastParts(p, c, s, elders, b, ts, p', c');
    PoolHeights(p, c, issuers, content);
    forall h | InPast(p, s, h) ensures ConfirmedBy(c', s, h) <==> h in Hashes(ts) {
      ElderHeight(c, s, ts, h);
    }
  }

  lemma {:induction false} PastParts(p: Pool, c: Chain, s: Tx, elders: Elders, b: Batch, ts: seq<Tx>, p': Pool, c': Chain)
    requires MovesOk(p, c, s, elders, b, ts, p', c')
    ensures s.Sequencer? && s.hash !in p.lookup && c.latest < s.height && c' == Pushed(c, ts, s) && elders == PastOf(p, s)
    ensures forall h :: InPast(p, s, h) <==> h in elders && elders[h].Normal?
    ensures AllWalked(elders, ts) <==> DistinctPairs(elders)
  {
    OpenMoves(p, c, s, elders, b, ts, p', c');
    PastIs(p, s, elders);
    WalkAllExactly(elders, b, ts);
  }

  lemma {:induction false} PoolHeights(p: Pool, c: Chain, issuers: set<Address>, content: Hash -> Tx)
    requires PoolOk(p, c, issuers, content)
    ensures HeightsOk(c)
  {
    OpenPool(p, c, issuers, content);
  }

  /** A normal transaction of the pool in the past of the sequencer. */
  ghost predicate InPast(p: Pool, s: Tx, h: Hash) {
    ElderSearch.Reached(p, s.parents, h) && h in p.lookup && p.lookup[h].tx.Normal?
  }

  /**
   Of the transactions in the past that share a sender and a nonce exactly one is confirmed, and
   the others leave the pool without being confirmed.
   */
  lemma {:induction false} TwinsLost(p: Pool, c: Chain, issuers: set<Address>, content: Hash -> Tx, s: Tx, elders: Elders, b: Batch, ts: seq<Tx>, p': Pool, c': Chain, h: Hash) returns (g: Hash)
    requires PoolOk(p, c, issuers, content) && MovesOk(p, c, s, elders, b, ts, p', c') && s.Sequencer? && InPast(p, s, h)
    ensures Twins(elders, g, h) && ConfirmedBy(c', s, g) && h !in p'.lookup
    ensures forall k :: Twins(elders, k, h) && k != g ==> !ConfirmedBy(c', s, k) && k !in p'.lookup && (k in c'.txs <==> k in c.txs)
  {
    OpenMoves(p, c, s, elders, b, ts, p', c');
    PoolHeights(p, c, issuers, content);
    g := OneTwin(elders, b, ts, h);
    ElderHeight(c, s, ts, g);
    forall k | Twins(elders, k, h) && k != g ensures !ConfirmedBy(c', s, k) && k !in p'.lookup && (k in c'.txs <==> k in c.txs) {
      ElderHeight(c, s, ts, k);
      ConfirmAllTxs(c, ts, s.height, k);
    }
  }

  /** The normal transactions of the pool outside the past of the sequencer, in the order of the pool. */
  ghost predicate IsRest(p: Pool, s: Tx, rest: seq<Tx>) {
    && (forall t: Tx :: t in rest <==> t.hash in p.lookup && p.lookup[t.hash].tx == t && t.Normal? && !ElderSearch.Reached(p, s.parents, t.hash))
    && InOrder(p.order, rest)
  }

  /** There is one such list. */
  lemma {:induction false} RestUnique(p: Pool, s: Tx, rest: seq<Tx>, other: seq<Tx>)
    requires NoRepeats(p.order) && IsRest(p, s, rest) && IsRest(p, s, other)
    ensures rest == other
  {
    forall t: Tx ensures t in rest <==> t in other {}
    forall k | 0 <= k < |rest| ensures k < |other| && other[k] == rest[k] { SameInOrder(p.order, rest, other, k); }
    if other != [] { SameInOrder(p.order, other, rest, |other| - 1); }
    if rest != [] { SameInOrder(p.order, rest, other, |rest| - 1); }
  }

  /** Listed in the given order. */
  ghost predicate InOrder(order: seq<Hash>, ts: seq<Tx>) {
    forall i, j :: 0 <= i < j < |ts| ==> Before(order, ts[i].hash, ts[j].hash)
  }

  lemma {:induction false} SameInOrder(order: seq<Hash>, a: seq<Tx>, b: seq<Tx>, k: nat)
    requires NoRepeats(order) && InOrder(order, a) && InOrder(order, b) && k < |a| && forall t: Tx :: t in a <==> t in b
    ensures k < |b| && b[k] == a[k]
  {
    forall i | 0 <= i < k ensures i < |b| && b[i] == a[i] && b[i] != a[k] {
      SameInOrder(order, a, b, i);
      BeforeOnce(order, a[i].hash, a[k].hash);
    }
    assert a[k] in b;
    var m :| 0 <= m < |b| && b[m] == a[k];
    assert k <= m && b[k] in a;
    var n :| 0 <= n < |a| && a[n] == b[k];
    forall i | 0 <= i < k ensures a[i] != b[k] { BeforeOnce(order, b[i].hash, b[k].hash); }
    Crossed(order, a, b, k, n, m);
  }

  /** Two lists in one order do not cross. */
  lemma {:induction false} Crossed(order: seq<Hash>, a: seq<Tx>, b: seq<Tx>, k: nat, n: nat, m: nat)
    requires NoRepeats(order) && InOrder(order, a) && InOrder(order, b) && k <= n < |a| && k <= m < |b| && a[n] == b[k] && b[m] == a[k]
    ensures a[k] == b[k]
  {
    if n > k { BeforeOnce(order, a[k].hash, a[n].hash); }
  }

  /**
   The pool after a confirmation, apart from the sequencer, is made by judging the rest on the new
   ledger, one after the other in the order of the old pool.  Every transaction of the rest is judged
   in the pool that those before it make, and ends up as it is judged; those that stay keep their order.
   */
  lemma {:induction false} RestRejudged(p: Pool, c: Chain, issuers: set<Address>, content: Hash -> Tx, s: Tx, elders: Elders, b: Batch, ts: seq<Tx>, p': Pool, c': Chain) returns (rest: seq<Tx>)
    requires PoolOk(p, c, issuers, content) && MovesOk(p, c, s, elders, b, ts, p', c') && s == content(s.hash)
    ensures IsRest(p, s, rest) && AllNormal(rest)
    ensures forall k :: 0 <= k < |rest| ==> Rejudged(EnterAll(EMPTY, c', rest[..k]), p', c', rest[k])
    ensures forall i, j :: 0 <= i < j < |rest| ==> EarlierHeld(c', p', rest, i, j)
    ensures forall i, j :: 0 <= i < j < |rest| && rest[i].hash in p'.lookup && rest[j].hash in p'.lookup ==> Before(p'.order, rest[i].hash, rest[j].hash)
  {
    OpenMoves(p, c, s, elders, b, ts, p', c');
    rest := Survivors(Queued(p, s), Queued(p, s).order, elders.Keys);
    CanRejudge(p, c, issuers, content, s, elders, b, ts);
    OpenEnterable(c', rest);
    RestIs(p, c, issuers, content, s, elders);
    forall k | 0 <= k < |rest| ensures Rejudged(EnterAll(EMPTY, c', rest[..k]), p', c', rest[k]) {
      EnterAllJudged(c', rest, k);
    }
    forall i, j | 0 <= i < j < |rest| ensures EarlierHeld(c', p', rest, i, j) {
      EarlierIsThere(c', rest, i, j);
    }
    forall i, j | 0 <= i < j < |rest| && rest[i].hash in p'.lookup && rest[j].hash in p'.lookup ensures Before(p'.order, rest[i].hash, rest[j].hash) {
      EnterAllOrder(c', rest, i, j);
    }
  }

  /** Who comes at `j` is judged in a pool that holds the one at `i` exactly if that stays, and live exactly if it ends up live. */
  ghost predicate EarlierHeld(c: Chain, r: Pool, rest: seq<Tx>, i: nat, j: nat)
    requires i < j < |rest|
  {
    var q, h := EnterAll(EMPTY, c, rest[..j]), rest[i].hash;
    (h in q.lookup <==> h in r.lookup) && (h in q.lookup ==> (Live(q.lookup[h]) <==> Live(r.lookup[h])))
  }

  /** So no transaction is judged before a good parent of it: of good transactions the parent comes first. */
  lemma {:induction false} ParentComesFirst(p: Pool, s: Tx, rest: seq<Tx>, i: nat, j: nat)
    requires ArrivalOk(p) && NoRepeats(p.order) && IsRest(p, s, rest) && i < |rest| && j < |rest|
    requires Good(p, rest[i].hash) && Good(p, rest[j].hash) && rest[i].hash in rest[j].parents && i != j
    ensures i < j
  {
    assert rest[j] in rest;
    assert Before(p.order, rest[i].hash, rest[j].hash);
    FirstInRest(p, s, rest, i, j);
  }

  lemma {:induction false} FirstInRest(p: Pool, s: Tx, rest: seq<Tx>, i: nat, j: nat)
    requires NoRepeats(p.order) && IsRest(p, s, rest) && i < |rest| && j < |rest| && i != j && Before(p.order, rest[i].hash, rest[j].hash)
    ensures i < j
  {
    BeforeOnce(p.order, rest[i].hash, rest[j].hash);
  }

  lemma {:induction false} BeforeOnce(order: seq<Hash>, g: Hash, h: Hash)
    requires NoRepeats(order) && Before(order, g, h)
    ensures !Before(order, h, g) && g != h
  {
    var i, j :| 0 <= i < j < |order| && order[i] == g && order[j] == h;
    forall k, l | 0 <= k < l < |order| && order[k] == h ensures order[l] != g { assert k == j; }
  }

  lemma {:induction false} RestIs(p: Pool, c: Chain, issuers: set<Address>, content: Hash -> Tx, s: Tx, elders: Elders)
    requires PoolOk(p, c, issuers, content) && s.Sequencer? && s.hash !in p.lookup && IsPast(p, s, elders)
    ensures IsRest(p, s, Survivors(Queued(p, s), Queued(p, s).order, elders.Keys))
  {
    OpenPool(p, c, issuers, content);
    RestOf(p, c, s, elders);
  }

  lemma {:induction false} RestOf(p: Pool, c: Chain, s: Tx, elders: Elders)
    requires OrderOk(p) && LookupOk(p, c) && s.Sequencer? && s.hash !in p.lookup && IsPast(p, s, elders)
    ensures IsRest(p, s, Survivors(Queued(p, s), Queued(p, s).order, elders.Keys))
  {
    var rest := Survivors(Queued(p, s), Queued(p, s).order, elders.Keys);
    SurvivorsOfQueued(p, c, s, elders.Keys);
    forall t: Tx ensures t in rest <==> t.hash in p.lookup && p.lookup[t.hash].tx == t && t.Normal? && !ElderSearch.Reached(p, s.parents, t.hash) {
      RestHas(p, s, elders, rest, t);
    }
    forall i, j | 0 <= i < j < |rest| ensures Before(p.order, rest[i].hash, rest[j].hash) {
      RestBefore(p, c, s, elders, i, j);
    }
  }

  lemma {:induction false} RestHas(p: Pool, s: Tx, elders: Elders, rest: seq<Tx>, t: Tx)
    requires OrderOk(p) && s.Sequencer? && s.hash !in p.lookup && IsPast(p, s, elders)
    requires rest == Survivors(Queued(p, s), Queued(p, s).order, elders.Keys) && forall i :: 0 <= i < |rest| ==> Stays(p, elders.Keys, rest[i])
    ensures t in rest <==> t.hash in p.lookup && p.lookup[t.hash].tx == t && t.Normal? && !ElderSearch.Reached(p, s.parents, t.hash)
  {
    if t in rest {
      var i :| 0 <= i < |rest| && rest[i] == t;
      assert Stays(p, elders.Keys, rest[i]);
    }
    if t.hash in p.lookup && p.lookup[t.hash].tx == t && t.Normal? && t.hash !in elders {
      assert t.hash in Queued(p, s).order;
      var k := SurvivorAt(Queued(p, s), Queued(p, s).order, elders.Keys, t.hash);
    }
  }

  lemma {:induction false} RestBefore(p: Pool, c: Chain, s: Tx, elders: Elders, i: nat, j: nat)
    requires OrderOk(p) && LookupOk(p, c) && s.Sequencer? && s.hash !in p.lookup
    requires i < j < |Survivors(Queued(p, s), Queued(p, s).order, elders.Keys)|
    ensures var rest := Survivors(Queued(p, s), Queued(p, s).order, elders.Keys); Before(p.order, rest[i].hash, rest[j].hash)
  {
    var q := Queued(p, s);
    var rest := Survivors(q, q.order, elders.Keys);
    assert s.hash !in p.order;
    SurvivorsBefore(q, q.order, elders.Keys, i, j);
    BeforeAppend(p.order, s.hash, rest[i].hash, rest[j].hash);
    SurvivorsOfQueued(p, c, s, elders.Keys);
    assert Stays(p, elders.Keys, rest[j]);
  }

  lemma {:induction false} SurvivorsBefore(p: Pool, order: seq<Hash>, elders: set<Hash>, i: nat, j: nat)
    requires i < j < |Survivors(p, order, elders)| && NoRepeats(order) && forall h :: h in p.lookup ==> p.lookup[h].tx.hash == h
    ensures Before(order, Survivors(p, order, elders)[i].hash, Survivors(p, order, elders)[j].hash)
    decreases |order|
  {
    var front, last, ts := order[..|order| - 1], order[|order| - 1], Survivors(p, order, elders);
    var before := Survivors(p, front, elders);
    assert order == front + [last];
    SurvivorsGood(p, front, elders);
    BeforeAppend(front, last, ts[i].hash, ts[j].hash);
    assert ts[i] == before[i] && ts[i].hash in front;
    if j < |before| { SurvivorsBefore(p, front, elders, i, j); }
  }

  /** After a confirmation the sequencer is the only one listed in a flow. */
  lemma {:induction false} OnlySeqListed(p: Pool, c: Chain, issuers: set<Address>, content: Hash -> Tx, s: Tx, elders: Elders, b: Batch, ts: seq<Tx>, p': Pool, c': Chain, a: Address, n: nat)
    requires PoolOk(p, c, issuers, content) && MovesOk(p, c, s, elders, b, ts, p', c') && s == content(s.hash)
    ensures SeqListed(p', a, n) <==> (a, n) == (s.sender, s.nonce)
  {
    OpenMoves(p, c, s, elders, b, ts, p', c');
    var rest := Survivors(Queued(p, s), Queued(p, s).order, elders.Keys);
    CanRejudge(p, c, issuers, content, s, elders, b, ts);
    OpenEnterable(c', rest);
    PushOk(p, c, issuers, content, s, elders, b, ts);
    EnterAllInv(c', rest);
    EnterAllSeqListed(c', rest, a, n);
    EnterAllSeqListed(c', rest, s.sender, s.nonce);
    assert Balance(c'.accounts, s.sender) >= 0;
    SeqIsListed(EnterAll(EMPTY, c', rest), c', s, a, n);
  }

  lemma {:induction false} SurvivorAt(p: Pool, order: seq<Hash>, elders: set<Hash>, h: Hash) returns (k: nat)
    requires h in order && h in p.lookup && p.lookup[h].tx.Normal? && h !in elders
    ensures k < |Survivors(p, order, elders)| && Survivors(p, order, elders)[k] == p.lookup[h].tx
    decreases |order|
  {
    var front, last := order[..|order| - 1], order[|order| - 1];
    if last == h {
      k := |Survivors(p, front, elders)|;
    } else {
      assert order == front + [last];
      k := SurvivorAt(p, front, elders, h);
    }
  }

  /** Accepted sequencers are numbered without a gap: each is one above the one before, and on the ledger at its height. */
  lemma {:induction false} MovesNumbered(p: Pool, c: Chain, issuers: set<Address>, content: Hash -> Tx, s: Tx, elders: Elders, b: Batch, ts: seq<Tx>, p': Pool, c': Chain, seqs: seq<Tx>)
    requires PoolOk(p, c, issuers, content) && MovesOk(p, c, s, elders, b, ts, p', c') && s == content(s.hash) && Numbered(c, seqs)
    ensures Numbered(c', seqs + [s])
  {
    OpenMoves(p, c, s, elders, b, ts, p', c');
    CanPush(p, c, issuers, content, s, elders, b);
    BatchShaped(elders, b);
    PoolGenuine(p, c, issuers, content);
    forall i | 0 <= i < |ts| ensures ts[i].Normal? && ts[i] == content(ts[i].hash) {
      assert Listed(b, ts[i]);
      assert Has(elders, elders.Keys, ts[i]);
    }
    PushedNumbered(c, ts, s, seqs, content);
  }

  lemma {:induction false} PoolGenuine(p: Pool, c: Chain, issuers: set<Address>, content: Hash -> Tx)
    requires PoolOk(p, c, issuers, content)
    ensures Authentic(c, content)
  {
    OpenPool(p, c, issuers, content);
  }

  /** The sequencer ends up in the tips and on the ledger, but not in the lookup, and so without a status. */
  lemma {:induction false} SequencerHasNoStatus(p: Pool, c: Chain, s: Tx, elders: Elders, b: Batch, ts: seq<Tx>, p': Pool, c': Chain)
    requires MovesOk(p, c, s, elders, b, ts, p', c')
    ensures s.hash in p'.tips && s.hash !in p'.lookup && s.hash in c'.txs
  {
    OpenMoves(p, c, s, elders, b, ts, p', c');
  }

  /** A confirmed transaction of an account that issues no sequencer keeps its height through every confirmation. */
  lemma {:induction false} HeightKept(p: Pool, c: Chain, issuers: set<Address>, content: Hash -> Tx, s: Tx, elders: Elders, b: Batch, ts: seq<Tx>, p': Pool, c': Chain, h: Hash)
    requires PoolOk(p, c, issuers, content) && MovesOk(p, c, s, elders, b, ts, p', c') && s == content(s.hash)
    requires h in c.txs && c.txs[h].sender !in issuers + {s.sender}
    ensures h in c'.txs && c'.txs[h] == c.txs[h]
    ensures h in c.heights && h in c'.heights && c'.heights[h] == c.heights[h]
  {
    OpenMoves(p, c, s, elders, b, ts, p', c');
    CanPush(p, c, issuers, content, s, elders, b);
    PushOk(p, c, issuers, content, s, elders, b, ts);
    OpenPool(p, c, issuers, content);
    PushedGapFree(c, s, elders, b, ts, issuers);
    forall i | 0 <= i < |ts| && ts[i].hash == h ensures ts[i] == c.txs[h] { assert Listed(b, ts[i]); }
    HeightStays(c, s, ts, h);
  }
}
