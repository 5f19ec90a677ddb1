/**
 The transaction pool of core/tx_pool.go as the object its event loop works on.  One method call
 is one event: a transaction is judged and entered, or a sequencer confirms its past.
 */
module TxPool {
  import opened Ledger
  import opened Batches
  import opened BatchBuilder
  import opened Dag
  import opened PoolState
  import opened PoolSteps
  import opened ElderSearch
  import opened Confirmation

  datatype Result = Duplicate | Refused | Entered

  class Pool {
    var lookup: map<Hash, Env>
    var order: seq<Hash>
    var tips: map<Hash, Tx>
    var bad: map<Hash, Tx>
    var pending: map<Hash, Tx>
    var flows: map<Address, Flow>
    const dag: Store
    /** The accounts that issued a sequencer. */
    ghost var issuers: set<Address>
    /** The genesis and the sequencers accepted since, one after the other. */
    ghost var seqs: seq<Tx>

    function St(): PoolState.Pool
      reads this`lookup, this`order, this`tips, this`bad, this`pending, this`flows
    {
      PoolState.Pool(lookup, order, tips, bad, pending, flows)
    }

    /** The cache agrees with the ledger, pool and ledger are healthy, and the accepted sequencers are numbered. */
    ghost predicate Valid()
      reads this, dag
    {
      dag.CacheOk() && PoolOk(St(), dag.St(), issuers, dag.content) && Numbered(dag.St(), seqs)
    }

    /** A pool over a chain that holds just its genesis, which is the first tip. */
    constructor (dag: Store, genesis: Tx, balances: map<Address, nat>)
      requires dag.CacheOk() && dag.St() == Start(genesis, balances) && genesis.Sequencer? && genesis.height == 0 && Genuine(genesis, dag.content)
      ensures Valid() && this.dag == dag && issuers == {genesis.sender} && seqs == [genesis]
      ensures St() == PoolState.Pool(map[genesis.hash := Env(genesis, Tip)], [genesis.hash], map[genesis.hash := genesis], map[], map[], map[])
    {
      this.dag := dag;
      lookup, order, tips := map[genesis.hash := Env(genesis, Tip)], [genesis.hash], map[genesis.hash := genesis];
      bad, pending, flows, issuers, seqs := map[], map[], map[], {genesis.sender}, [genesis];
      new;
      StartPool(dag.St(), genesis, balances, dag.content);
    }

    // -------------------------------------------------------------------------
    // Judging
    // -------------------------------------------------------------------------

    method IsBadTx(t: Tx) returns (q: Quality)
      requires t.Normal? && dag.CacheOk()
      ensures q == Judge(St(), dag.St(), t)
    {
      var i := 0;
      while i < |t.parents|
        invariant 0 <= i <= |t.parents|
        invariant JudgeParents(St(), dag.St(), t.parents) == JudgeParents(St(), dag.St(), t.parents[i..])
      {
        assert t.parents[i..][1..] == t.parents[i + 1..];
        if t.parents[i] in lookup {
          if lookup[t.parents[i]].status == Bad { return IsBad; }
        } else {
          var found, _ := dag.GetTx(t.parents[i]);
          if !found { return IsFatal; }
        }
        i := i + 1;
      }
      var flow := if t.sender in flows then flows[t.sender] else Flow(Balance(dag.accounts, t.sender), 0, map[]);
      if t.nonce in flow.list { return if flow.list[t.nonce].hash == t.hash then IsFatal else IsBad; }
      if (t.sender, t.nonce) in dag.index { return IsFatal; }
      if t.value > flow.origin { return IsFatal; }
      if flow.spent + t.value > flow.origin { return IsBad; }
      return IsGood;
    }

    // -------------------------------------------------------------------------
    // The lookup
    // -------------------------------------------------------------------------

    method LookupAdd(t: Tx)
      requires t.hash !in lookup
      modifies this`lookup, this`order
      ensures St() == Queued(old(St()), t)
    {
      order := order + [t.hash];
      lookup := lookup[t.hash := Env(t, Queue)];
    }

    method RemoveFromFront(h: Hash)
      requires NoRepeats(order)
      modifies this`lookup, this`order
      ensures lookup == old(lookup) - {h} && order == Without(old(order), {h})
    {
      var i := 0;
      while i < |order| && order[i] != h
        invariant 0 <= i <= |order| && forall j :: 0 <= j < i ==> order[j] != h
      {
        i := i + 1;
      }
      if i < |order| {
        CutOut(order, i);
        order := order[..i] + order[i + 1..];
      } else {
        WithoutAbsent(order, {h});
      }
      lookup := lookup - {h};
    }

    method RemoveFromEnd(h: Hash)
      requires NoRepeats(order)
      modifies this`lookup, this`order
      ensures lookup == old(lookup) - {h} && order == Without(old(order), {h})
    {
      var i := |order|;
      while i > 0 && order[i - 1] != h
        invariant 0 <= i <= |order| && forall j :: i <= j < |order| ==> order[j] != h
      {
        i := i - 1;
      }
      if i > 0 {
        CutOut(order, i - 1);
        order := order[..i - 1] + order[i..];
      } else {
        WithoutAbsent(order, {h});
      }
      lookup := lookup - {h};
    }

    // -------------------------------------------------------------------------
    // Committing
    // -------------------------------------------------------------------------

    /** A tip that is named becomes pending; a sequencer leaves. */
    method MoveParent(h: Hash)
      requires NoRepeats(order)
      modifies this`lookup, this`order, this`tips, this`pending
      ensures St() == ShelveOne(old(St()), h)
    {
      if h !in lookup || lookup[h].status != Tip { return; }
      if h !in tips { return; }
      var parent := tips[h];
      tips := tips - {h};
      if parent.Sequencer? {
        RemoveFromFront(h);
        return;
      }
      if parent.hash !in pending { pending := pending[parent.hash := parent]; }
      lookup := lookup[h := Env(lookup[h].tx, Pending)];
    }

    method MoveParents(parents: seq<Hash>)
      requires NoRepeats(order) && TipsOk(St()) && PendingOk(St())
      modifies this`lookup, this`order, this`tips, this`pending
      ensures St() == Shelve(old(St()), set h | h in parents)
    {
      var i := 0;
      ghost var p := St();
      ShelveNone(p);
      while i < |parents|
        invariant 0 <= i <= |parents|
        invariant St() == Shelve(p, Elements(parents[..i])) && NoRepeats(order)
      {
        ShelveNext(p, parents, i);
        MoveParent(parents[i]);
        i := i + 1;
      }
      assert parents[..i] == parents;
    }

    method FlowsAdd(t: Tx)
      modifies this`flows
      ensures flows == old(flows)[t.sender := FlowAdd(FlowOf(old(St()), dag.St(), t.sender), t)]
    {
      if t.sender !in flows {
        flows := flows[t.sender := Flow(Balance(dag.accounts, t.sender), 0, map[])];
      }
      var f := flows[t.sender];
      if t.nonce !in f.list && f.spent + ValueOf(t) <= f.origin {
        flows := flows[t.sender := Flow(f.origin, f.spent + ValueOf(t), f.list[t.nonce := t])];
      }
    }

    /** Judges and files a transaction that was just put in the lookup. */
    method Commit(t: Tx, ghost p: PoolState.Pool) returns (ok: bool)
      requires New(p, t) && Steady(p) && St() == Queued(p, t) && dag.CacheOk()
      modifies this`lookup, this`order, this`tips, this`bad, this`pending, this`flows
      ensures St() == Enter(p, dag.St(), t) && (ok <==> Judge(Queued(p, t), dag.St(), t) != IsFatal)
    {
      var quality := IsBadTx(t);
      if quality == IsFatal {
        Unqueue(p, t);
        return false;
      }
      if quality == IsBad {
        CommitBad(t, p);
        return true;
      }
      CommitGood(t, p);
      return true;
    }

    method Unqueue(ghost p: PoolState.Pool, t: Tx)
      requires t.hash !in p.lookup && Steady(p) && St() == Queued(p, t)
      modifies this`lookup, this`order
      ensures St() == p
    {
      QueuedBack(p, t);
      RemoveFromEnd(t.hash);
    }

    method CommitBad(t: Tx, ghost p: PoolState.Pool)
      requires New(p, t) && St() == Queued(p, t)
      modifies this`lookup, this`bad
      ensures St() == EnterBad(p, t)
    {
      bad := bad[t.hash := t];
      lookup := lookup[t.hash := Env(t, Bad)];
      assert lookup == p.lookup[t.hash := Env(t, Bad)];
    }

    method CommitGood(t: Tx, ghost p: PoolState.Pool)
      requires New(p, t) && Steady(p) && St() == Queued(p, t)
      modifies this`lookup, this`order, this`tips, this`pending, this`flows
      ensures St() == EnterGood(p, dag.St(), t)
    {
      QueuedSteady(p, t);
      MoveParents(t.parents);
      FlowsAdd(t);
      tips := tips[t.hash := t];
      lookup := lookup[t.hash := Env(t, Tip)];
    }

    /** One transaction event. */
    method AddTx(t: Tx) returns (res: Result)
      requires Valid() && t.Normal? && Genuine(t, dag.content)
      modifies this`lookup, this`order, this`tips, this`bad, this`pending, this`flows
      ensures Valid()
      ensures res == Duplicate <==> t.hash in old(lookup)
      ensures St() == if t.hash in old(lookup) then old(St()) else Enter(old(St()), dag.St(), t)
      ensures res == Refused <==> t.hash !in old(lookup) && Hopeless(old(St()), dag.St(), t)
      ensures res == Refused ==> St() == old(St())
      ensures res == Result.Entered ==> t.hash in lookup && lookup[t.hash].tx == t && Arrives(old(order), order, t.hash)
      ensures res == Result.Entered ==> lookup[t.hash].status == if Sound(old(St()), dag.St(), t) then Tip else Bad
      ensures t.hash !in old(lookup) ==> (t.hash in lookup && lookup[t.hash].status == Bad <==> Suspect(old(St()), dag.St(), t))
    {
      if t.hash in lookup { return Duplicate; }
      EnterOk(St(), dag.St(), issuers, dag.content, t);
      Judged(St(), dag.St(), issuers, dag.content, t);
      var ok := AddNew(t);
      return if ok then Result.Entered else Refused;
    }

    method AddNew(t: Tx) returns (ok: bool)
      requires Valid() && t.Normal? && Genuine(t, dag.content) && t.hash !in lookup
      modifies this`lookup, this`order, this`tips, this`bad, this`pending, this`flows
      ensures St() == Enter(old(St()), dag.St(), t) && (ok <==> Judge(Queued(old(St()), t), dag.St(), t) != IsFatal)
    {
      ghost var p := St();
      CanCommit(p, dag.St(), issuers, dag.content, t);
      LookupAdd(t);
      ok := Commit(t, p);
    }

    // -------------------------------------------------------------------------
    // Confirming
    // -------------------------------------------------------------------------

    /** Takes the elders out of the lookup and lists the normal transactions that stay, in order. */
    method Collect(elders: Elders) returns (txs: seq<Tx>)
      modifies this`lookup
      ensures txs == Survivors(old(St()), order, elders.Keys)
    {
      var rest := elders.Keys;
      ghost var done: set<Hash> := {};
      while rest != {}
        invariant rest + done == elders.Keys && lookup == old(lookup) - done
        decreases |rest|
      {
        var h :| h in rest;
        lookup := lookup - {h};
        rest, done := rest - {h}, done + {h};
      }
      assert done == elders.Keys;
      txs := [];
      var i := 0;
      while i < |order|
        invariant 0 <= i <= |order| && txs == Survivors(old(St()), order[..i], elders.Keys)
      {
        assert order[..i + 1][..i] == order[..i];
        if order[i] in lookup && lookup[order[i]].tx.Normal? {
          txs := txs + [lookup[order[i]].tx];
        }
        i := i + 1;
      }
      assert order[..i] == order;
    }

    method ClearAll()
      modifies this`lookup, this`order, this`tips, this`bad, this`pending, this`flows
      ensures St() == EMPTY
    {
      bad, tips, pending, flows := map[], map[], map[], map[];
      lookup, order := map[], [];
    }

    /** Everything that is no elder is judged again, in the order it came. */
    method SolveConflicts(elders: Elders)
      requires Enterable(dag.St(), Survivors(St(), order, elders.Keys)) && dag.CacheOk()
      modifies this`lookup, this`order, this`tips, this`bad, this`pending, this`flows
      ensures St() == EnterAll(EMPTY, dag.St(), Survivors(old(St()), old(order), elders.Keys))
    {
      var txs := Collect(elders);
      ClearAll();
      Rejudge(txs);
    }

    method Rejudge(txs: seq<Tx>)
      requires Enterable(dag.St(), txs) && dag.CacheOk() && St() == EMPTY
      modifies this`lookup, this`order, this`tips, this`bad, this`pending, this`flows
      ensures St() == EnterAll(EMPTY, dag.St(), txs)
    {
      var i := 0;
      while i < |txs|
        invariant 0 <= i <= |txs| && St() == EnterAll(EMPTY, dag.St(), txs[..i])
      {
        EnterablePrefix(dag.St(), txs, i);
        ghost var p := St();
        LookupAdd(txs[i]);
        var _ := Commit(txs[i], p);
        i := i + 1;
      }
      assert txs[..i] == txs;
    }

    /** Finds the sequencer's past and verifies it. */
    method Prepare(s: Tx, ghost p: PoolState.Pool) returns (ok: bool, elders: Elders, b: Batch)
      requires s.hash !in p.lookup && s.Sequencer? && St() == Queued(p, s) && PoolOk(p, dag.St(), issuers, dag.content)
      ensures ok && dag.latest + 1 == s.height <==> Acceptable(p, dag.St(), s)
      ensures ok ==> Planned(p, dag.St(), s, elders, b)
    {
      elders, b := map[], map[];
      if (s.sender, s.nonce) in dag.index { return false, elders, b; }
      OpenPool(p, dag.St(), issuers, dag.content);
      ok, elders := SeekElders(St(), dag.St(), s);
      if !ok { return; }
      PastIs(St(), s, elders);
      PastHashed(p, dag.St(), s, elders);
      ok, b := VerifyConfirmBatch(dag.accounts, s, elders);
      if ok {
        assert s.hash !in elders;
        PastQueued(p, s, elders);
      }
    }

    /** Adds the sequencer to its sender's flow and to the tips; it is no longer in the lookup, so it gets no status. */
    method JoinTips(s: Tx)
      modifies this`lookup, this`tips, this`flows
      ensures St() == TakeTip(SeqEnters(old(St()), dag.St(), s), s.hash)
    {
      FlowsAdd(s);
      if s.hash !in tips { tips := tips[s.hash := s]; }
      if s.hash in lookup { lookup := lookup[s.hash := lookup[s.hash].(status := Tip)]; }
    }

    /** Rejudges the pool on the new ledger and adds the sequencer to the tips. */
    method Conclude(s: Tx, elders: Elders, ghost p: PoolState.Pool, ghost c: Chain, ghost b: Batch, ghost ts: seq<Tx>, ghost was: set<Address>)
      requires s.hash !in p.lookup && s.Sequencer? && St() == Queued(p, s) && s == dag.content(s.hash)
      requires PoolOk(p, c, was, dag.content) && Planned(p, c, s, elders, b) && Walk(b, ts) && dag.CacheOk() && dag.St() == Pushed(c, ts, s) && c.latest < s.height
      modifies this`lookup, this`order, this`tips, this`bad, this`pending, this`flows
      ensures PoolOk(St(), dag.St(), was + {s.sender}, dag.content) && Confirmed(p, St(), s, elders.Keys)
      ensures St() == After(Queued(p, s), dag.St(), s, elders.Keys)
    {
      CanRejudge(p, c, was, dag.content, s, elders, b, ts);
      ConfirmOk(p, c, was, dag.content, s, elders, b, ts);
      SolveConflicts(elders);
      JoinTips(s);
      assert St() == After(Queued(p, s), Pushed(c, ts, s), s, elders.Keys);
    }

    /** Confirms a sequencer that was just put in the lookup. */
    method Confirm(s: Tx, ghost p: PoolState.Pool) returns (ok: bool, ghost elders: Elders, ghost b: Batch, ghost ts: seq<Tx>)
      requires s.hash !in p.lookup && s.Sequencer? && St() == Queued(p, s) && s == dag.content(s.hash)
      requires dag.CacheOk() && PoolOk(p, dag.St(), issuers, dag.content)
      modifies this, dag
      ensures dag.CacheOk() && issuers == old(issuers) && seqs == old(seqs) && (ok <==> Acceptable(p, old(dag.St()), s))
      ensures !ok ==> St() == old(St()) && dag.St() == old(dag.St())
      ensures ok ==> MovesOk(p, old(dag.St()), s, elders, b, ts, St(), dag.St())
      ensures ok ==> PoolOk(St(), dag.St(), issuers + {s.sender}, dag.content)
    {
      elders, b, ts := map[], map[], [];
      var past, batch;
      ok, past, batch := Prepare(s, p);
      if !ok { return; }
      elders, b := past, batch;
      ok, ts := Proceed(s, p, past, batch);
    }

    /** Pushes a verified batch, unless the sequencer is not the next one, and rejudges the pool. */
    method Proceed(s: Tx, ghost p: PoolState.Pool, past: Elders, batch: Batch) returns (ok: bool, ghost ts: seq<Tx>)
      requires s.hash !in p.lookup && s.Sequencer? && St() == Queued(p, s) && s == dag.content(s.hash)
      requires dag.CacheOk() && PoolOk(p, dag.St(), issuers, dag.content) && Planned(p, dag.St(), s, past, batch)
      modifies this, dag
      ensures dag.CacheOk() && issuers == old(issuers) && seqs == old(seqs) && (ok <==> old(dag.latest) + 1 == s.height)
      ensures !ok ==> St() == old(St()) && dag.St() == old(dag.St())
      ensures ok ==> MovesOk(p, old(dag.St()), s, past, batch, ts, St(), dag.St())
      ensures ok ==> PoolOk(St(), dag.St(), issuers + {s.sender}, dag.content)
    {
      ghost var c := dag.St();
      CanPush(p, c, issuers, dag.content, s, past, batch);
      ok, ts := dag.Push(batch, s);
      if !ok { return; }
      Conclude(s, past, p, c, batch, ts, issuers);
      CloseMoves(p, c, s, past, batch, ts, St(), dag.St());
    }

    /**
     One sequencer event.  A refused sequencer leaves everything as it was; an accepted one moves
     its past out of the pool and confirms the batch of that past.
     */
    method AddSeq(s: Tx) returns (res: Result, ghost elders: Elders, ghost b: Batch, ghost ts: seq<Tx>)
      requires Valid() && s.Sequencer? && s == dag.content(s.hash)
      modifies this, dag
      ensures Valid()
      ensures res == Duplicate <==> s.hash in old(lookup)
      ensures res == Result.Entered <==> s.hash !in old(lookup) && Acceptable(old(St()), old(dag.St()), s)
      ensures res != Result.Entered ==> St() == old(St()) && dag.St() == old(dag.St()) && issuers == old(issuers) && seqs == old(seqs)
      ensures res == Result.Entered ==> MovesOk(old(St()), old(dag.St()), s, elders, b, ts, St(), dag.St())
      ensures res == Result.Entered ==> issuers == old(issuers) + {s.sender} && seqs == old(seqs) + [s]
    {
      if s.hash in lookup { return Duplicate, map[], map[], []; }
      ghost var p := St();
      LookupAdd(s);
      var ok;
      ok, elders, b, ts := Confirm(s, p);
      if !ok {
        PoolSteady(p, dag.St(), issuers, dag.content);
        Unqueue(p, s);
        return Refused, elders, b, ts;
      }
      MovesNumbered(p, old(dag.St()), old(issuers), dag.content, s, elders, b, ts, St(), dag.St(), seqs);
      issuers, seqs := issuers + {s.sender}, seqs + [s];
      res := Result.Entered;
    }
  }

  /** What becomes of a new transaction. */
  lemma {:induction false} Judged(p: PoolState.Pool, c: Chain, issuers: set<Address>, content: Hash -> Tx, t: Tx)
    requires PoolOk(p, c, issuers, content) && t.Normal? && Genuine(t, content) && t.hash !in p.lookup
    ensures Judge(Queued(p, t), c, t) == IsFatal <==> Hopeless(p, c, t)
    ensures Judge(Queued(p, t), c, t) == IsBad <==> Suspect(p, c, t)
    ensures Judge(Queued(p, t), c, t) == IsGood <==> Sound(p, c, t)
    ensures !Hopeless(p, c, t) ==> Arrives(p.order, Enter(p, c, t).order, t.hash)
  {
    OpenPool(p, c, issuers, content);
    JudgedExactly(p, c, t);
    if !Hopeless(p, c, t) { EnterArrives(p, c, t); }
  }

  /** One parent more. */
  lemma {:induction false} ShelveNext(p: PoolState.Pool, parents: seq<Hash>, i: nat)
    requires i < |parents| && NoRepeats(p.order) && TipsOk(p) && PendingOk(p)
    ensures Shelve(p, Elements(parents[..i + 1])) == ShelveOne(Shelve(p, Elements(parents[..i])), parents[i])
    ensures NoRepeats(Shelve(p, Elements(parents[..i + 1])).order)
  {
    assert parents[..i + 1] == parents[..i] + [parents[i]];
    ElementsAppend(parents[..i], parents[i]);
    ShelveStep(p, Elements(parents[..i]), parents[i]);
    WithoutOk(p.order, Dropped(p, Elements(parents[..i + 1])));
  }

  lemma {:induction false} ShelveNone(p: PoolState.Pool)
    ensures Shelve(p, {}) == p && Elements([]) == {}
  {
    assert Moved(p, {}) == {} && Dropped(p, {}) == {};
    WithoutAbsent(p.order, {});
    assert p.tips - {} == p.tips;
    assert LookupAfter(p.lookup, {}, {}) == p.lookup;
    assert PendingAfter(p.pending, p.tips, {}, {}) == p.pending;
  }
}
