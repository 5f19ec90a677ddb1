/**
 A run of the pool that loses a transaction (core/tx_pool.go): a good and a bad transaction use the
 same nonce of the same sender, and a sequencer whose past holds both of them is accepted.
 */
module LostTwin {
  import opened Sums
  import opened Ledger
  import opened Batches
  import opened BatchBuilder
  import opened Dag
  import opened PoolState
  import opened ElderSearch
  import opened Confirmation
  import TxPool

  const GENESIS := Sequencer(0, 9, 0, [], 0)

  const FIRST := Normal(1, 5, 1, [0], 6, 3)

  const SECOND := Normal(2, 5, 1, [0], 7, 4)

  const SEQUENCER := Sequencer(3, 9, 1, [1, 2], 1)

  const BALANCES: map<Address, nat> := map[5 := 10]

  function Content(h: Hash): Tx {
    if h == 0 then GENESIS else if h == 1 then FIRST else if h == 2 then SECOND else SEQUENCER
  }

  /** The pool over the genesis. */
  function StartPool(): Pool {
    Pool(map[0 := Env(GENESIS, Tip)], [0], map[0 := GENESIS], map[], map[], map[])
  }

  /** The first is judged good, and the genesis leaves the lookup. */
  lemma {:induction false} FirstGood(p: Pool, c: Chain, t: Tx)
    requires OnlyGenesis(p, c, t) && t.Normal?
    ensures OnlyFirst(Enter(p, c, t)) && t.hash !in p.lookup && c == Start(GENESIS, BALANCES)
  {
    assert Look(p, c, 0);
    assert t.parents[1..] == [];
    assert JudgeParents(Queued(p, t), c, []) == IsGood;
    assert JudgeParents(Queued(p, t), c, t.parents) == IsGood;
    assert Judge(Queued(p, t), c, t) == IsGood;
    assert Moved(Queued(p, t), ParentSet(t)) == {0} && Dropped(Queued(p, t), ParentSet(t)) == {0};
    assert EnterGood(p, c, t).lookup.Keys == {1};
  }

  /** The beginning, and the first transaction to come; opened only where the state is looked at. */
  ghost predicate OnlyGenesis(p: Pool, c: Chain, t: Tx) {
    forall n {:trigger Look(p, c, n)} :: Look(p, c, n) ==> p == StartPool() && c == Start(GENESIS, BALANCES) && t == FIRST
  }

  ghost predicate OnlyFirst(p: Pool) {
    && p.lookup.Keys == {1} && p.lookup[1] == Env(FIRST, Tip)
    && 5 in p.flows && 1 in p.flows[5].list && p.flows[5].list[1] == FIRST
  }

  /** The second finds its nonce taken and is judged bad. */
  lemma {:induction false} SecondBad(p: Pool, c: Chain, t: Tx)
    requires OnlyFirst(p) && c == Start(GENESIS, BALANCES) && t == SECOND
    ensures Both(Enter(p, c, t))
  {
    assert t.parents[1..] == [];
    assert JudgeParents(Queued(p, t), c, []) == IsGood;
    assert JudgeParents(Queued(p, t), c, t.parents) == IsGood;
    assert Judge(Queued(p, t), c, t) == IsBad;
  }

  ghost predicate Both(p: Pool) {
    p.lookup.Keys == {1, 2} && p.lookup[1] == Env(FIRST, Tip) && p.lookup[2] == Env(SECOND, Bad)
  }

  /** Both are in the past of the sequencer, and nothing else of the pool is. */
  lemma {:induction false} PastOfBoth(p: Pool)
    requires p.lookup.Keys <= {1, 2, 3} && 1 in p.lookup && 2 in p.lookup && p.lookup[1].tx == FIRST && p.lookup[2].tx == SECOND
    ensures BothElders(PastOf(p, SEQUENCER)) && PastKnown(p, Start(GENESIS, BALANCES), SEQUENCER)
  {
    ReachedStart(p, SEQUENCER.parents, 1);
    ReachedStart(p, SEQUENCER.parents, 2);
    assert Closed(p, SEQUENCER.parents, {0, 1, 2});
    forall h | Reached(p, SEQUENCER.parents, h) ensures h in {0, 1, 2} {
      var path :| Path(p, SEQUENCER.parents, path) && path[|path| - 1] == h;
      ReachedVisited(p, SEQUENCER.parents, {0, 1, 2}, path, |path| - 1);
    }
  }

  ghost predicate BothElders(elders: Elders) {
    elders.Keys == {1, 2} && elders[1] == FIRST && elders[2] == SECOND
  }

  lemma {:induction false} BothAffordable(elders: Elders)
    requires BothElders(elders)
    ensures Confirmable(Start(GENESIS, BALANCES).accounts, SEQUENCER, elders)
  {
    var acc := Start(GENESIS, BALANCES).accounts;
    forall a | Touched(elders, elders.Keys, a) ensures AddressOk(acc, SEQUENCER, elders, a) {
      assert {1, 2} - {1} == {2} && {2} - {2} == {};
      SumRemove({1, 2}, h => OutAt(elders, h, a), 1);
      SumRemove({2}, h => OutAt(elders, h, a), 2);
      if a == 5 {
        assert elders[1].nonce in NoncesUsed(elders, 5);
        assert NoncesUsed(elders, 5) == {1};
        assert Continues(acc, 5, {1}, 1);
      }
    }
  }

  /** The sequencer is accepted. */
  lemma {:induction false} IsAcceptable(p: Pool, c: Chain)
    requires Both(p) && c == Start(GENESIS, BALANCES)
    ensures Acceptable(p, c, SEQUENCER)
  {
    PastOfBoth(Queued(p, SEQUENCER));
    BothAffordable(PastOf(Queued(p, SEQUENCER), SEQUENCER));
  }

  /** However its batch is built, exactly one of the two transactions reaches the ledger, and none stays in the pool. */
  lemma {:induction false} OneIsLost(p: Pool, c: Chain, issuers: set<Address>, content: Hash -> Tx, s: Tx, elders: Elders, b: Batch, ts: seq<Tx>, p': Pool, c': Chain)
    requires Both(p) && 1 !in c.txs && 2 !in c.txs && s == SEQUENCER
    requires PoolOk(p, c, issuers, content) && MovesOk(p, c, s, elders, b, ts, p', c')
    ensures 1 !in p'.lookup && 2 !in p'.lookup && (1 in c'.txs <==> 2 !in c'.txs)
  {
    PastOfBoth(p);
    PastConfirmed(p, c, issuers, content, s, elders, b, ts, p', c');
    BothInPast(p, s, elders);
    var g := TwinsLost(p, c, issuers, content, s, elders, b, ts, p', c', 1);
    PastLeaves(p, c, s, elders, b, ts, p', c', 2);
  }

  lemma {:induction false} BothInPast(p: Pool, s: Tx, elders: Elders)
    requires Both(p) && elders == PastOf(p, s) && BothElders(elders)
    ensures InPast(p, s, 1) && InPast(p, s, 2)
    ensures forall g :: Twins(elders, g, 1) <==> g == 1 || g == 2
  {
    assert 1 in elders && 2 in elders;
  }

  /** The pool of the run, with the genesis alone. */
  method Begin() returns (pool: TxPool.Pool)
    ensures fresh(pool) && fresh(pool.dag) && pool.Valid() && pool.dag.content == Content
    ensures OnlyGenesis(pool.St(), pool.dag.St(), FIRST)
  {
    var dag := new Store(GENESIS, BALANCES, 100, Content);
    pool := new TxPool.Pool(dag, GENESIS, BALANCES);
  }

  method AddFirst(pool: TxPool.Pool, t: Tx)
    requires pool.Valid() && t.Normal? && Genuine(t, pool.dag.content)
    requires OnlyGenesis(pool.St(), pool.dag.St(), t)
    modifies pool
    ensures pool.Valid() && OnlyFirst(pool.St()) && pool.dag.St() == Start(GENESIS, BALANCES)
  {
    FirstGood(pool.St(), pool.dag.St(), t);
    var _ := pool.AddTx(t);
  }

  method AddSecond(pool: TxPool.Pool, t: Tx)
    requires pool.Valid() && pool.dag.content == Content && t == SECOND
    requires OnlyFirst(pool.St()) && pool.dag.St() == Start(GENESIS, BALANCES)
    modifies pool
    ensures pool.Valid() && Both(pool.St())
  {
    SecondBad(pool.St(), pool.dag.St(), t);
    var _ := pool.AddTx(t);
  }

  method AddSequencer(pool: TxPool.Pool, s: Tx)
    requires pool.Valid() && pool.dag.content == Content && s == SEQUENCER
    requires Both(pool.St()) && pool.dag.St() == Start(GENESIS, BALANCES)
    modifies pool, pool.dag
    ensures pool.Valid() && 1 !in pool.lookup && 2 !in pool.lookup && (1 in pool.dag.txs <==> 2 !in pool.dag.txs)
  {
    ghost var p, c, issuers := pool.St(), pool.dag.St(), pool.issuers;
    IsAcceptable(p, c);
    var _, elders, b, ts := pool.AddSeq(s);
    OneIsLost(p, c, issuers, pool.dag.content, s, elders, b, ts, pool.St(), pool.dag.St());
  }

  /** The run: the two transactions and the sequencer are added one after the other, and one transaction is nowhere. */
  method Run() returns (pool: TxPool.Pool)
    ensures pool.Valid() && 1 !in pool.lookup && 2 !in pool.lookup && (1 in pool.dag.txs <==> 2 !in pool.dag.txs)
  {
    pool := Begin();
    AddFirst(pool, FIRST);
    AddSecond(pool, SECOND);
    AddSequencer(pool, SEQUENCER);
  }
}
