/**
 The smaller steps of the transaction pool (core/tx_pool.go): moving one parent out of the tips,
 and what is left of the pool after a sequencer confirmed its elders.
 */
module PoolSteps {
  import opened Sums
  import opened Ledger
  import opened Dag
  import opened PoolState

  // ---------------------------------------------------------------------------
  // The insertion order
  // ---------------------------------------------------------------------------

  lemma {:induction false} WithoutAbsent(order: seq<Hash>, hs: set<Hash>)
    requires forall h :: h in hs ==> h !in order
    ensures Without(order, hs) == order
    decreases |order|
  {
    if order != [] {
      var front, last := order[..|order| - 1], order[|order| - 1];
      assert order == front + [last];
      WithoutAbsent(front, hs);
    }
  }

  lemma {:induction false} WithoutLast(order: seq<Hash>, h: Hash)
    requires NoRepeats(order) && h !in order
    ensures Without(order + [h], {h}) == order && NoRepeats(order + [h])
  {
    WithoutAbsent(order, {h});
    assert (order + [h])[..|order|] == order && (order + [h])[|order|] == h;
    assert order + [] == order;
  }

  /** Cutting out the one place of a hash. */
  lemma {:induction false} CutOut(order: seq<Hash>, i: nat)
    requires i < |order| && NoRepeats(order)
    ensures order[..i] + order[i + 1..] == Without(order, {order[i]})
    decreases |order|
  {
    var front, last := order[..|order| - 1], order[|order| - 1];
    assert order == front + [last];
    if i == |order| - 1 {
      WithoutAbsent(front, {last});
    } else {
      CutOut(front, i);
      assert order[..i] + order[i + 1..] == front[..i] + front[i + 1..] + [last];
    }
  }

  lemma {:induction false} WithoutTwice(order: seq<Hash>, hs: set<Hash>, h: Hash)
    ensures Without(Without(order, hs), {h}) == Without(order, hs + {h})
    decreases |order|
  {
    if order != [] {
      var front, last := order[..|order| - 1], order[|order| - 1];
      WithoutTwice(front, hs, h);
      var w := Without(front, hs);
      assert w + [] == w && Without(w, {h}) + [] == Without(w, {h});
      assert (w + [last])[..|w|] == w && (w + [last])[|w|] == last;
    }
  }

  // ---------------------------------------------------------------------------
  // One parent
  // ---------------------------------------------------------------------------

  function AddTo(m: map<Hash, Tx>, t: Tx): map<Hash, Tx> {
    if t.hash in m then m else m[t.hash := t]
  }

  /** What commit does with one parent. */
  function ShelveOne(p: Pool, h: Hash): Pool {
    if h !in p.lookup || p.lookup[h].status != Tip || h !in p.tips then p
    else if p.tips[h].Sequencer? then p.(tips := p.tips - {h}, lookup := p.lookup - {h}, order := Without(p.order, {h}))
    else p.(tips := p.tips - {h}, pending := AddTo(p.pending, p.tips[h]), lookup := p.lookup[h := Env(p.lookup[h].tx, Pending)])
  }

  lemma {:induction false} MovedStep(p: Pool, hs: set<Hash>, h: Hash)
    ensures Moved(p, hs + {h}) == Moved(p, hs) + Moved(p, {h}) && Dropped(p, hs + {h}) == Dropped(p, hs) + Dropped(p, {h})
    ensures Moved(p, {h}) == if h in p.lookup && p.lookup[h].status == Tip && h in p.tips then {h} else {}
    ensures Dropped(p, {h}) == if h in p.lookup && p.lookup[h].status == Tip && h in p.tips && p.tips[h].Sequencer? then {h} else {}
  {
  }

  /** Parent after parent is all parents at once. */
  lemma {:induction false} ShelveStep(p: Pool, hs: set<Hash>, h: Hash)
    requires TipsOk(p) && PendingOk(p)
    ensures Shelve(p, hs + {h}) == ShelveOne(Shelve(p, hs), h)
  {
    MovedStep(p, hs, h);
    if Moved(p, {h}) == {} || h in Moved(p, hs) {
      assert Moved(p, hs + {h}) == Moved(p, hs) && Dropped(p, hs + {h}) == Dropped(p, hs);
      assert Shelve(p, hs + {h}) == Shelve(p, hs);
    } else {
      ShelveNew(p, hs, h);
    }
  }

  lemma {:induction false} LookupStep(lookup: map<Hash, Env>, moved: set<Hash>, dropped: set<Hash>, h: Hash)
    requires h in lookup && h !in moved && h !in dropped
    ensures LookupAfter(lookup, moved + {h}, dropped + {h}) == LookupAfter(lookup, moved, dropped) - {h}
    ensures LookupAfter(lookup, moved + {h}, dropped) == LookupAfter(lookup, moved, dropped)[h := Env(lookup[h].tx, Pending)]
    ensures h in LookupAfter(lookup, moved, dropped) && LookupAfter(lookup, moved, dropped)[h] == lookup[h]
  {
  }

  lemma {:induction false} PendingStep(pending: map<Hash, Tx>, tips: map<Hash, Tx>, moved: set<Hash>, dropped: set<Hash>, h: Hash)
    requires h in tips && h !in moved && h !in dropped && h !in pending && tips[h].hash == h
    ensures PendingAfter(pending, tips, moved + {h}, dropped + {h}) == PendingAfter(pending, tips, moved, dropped)
    ensures PendingAfter(pending, tips, moved + {h}, dropped) == AddTo(PendingAfter(pending, tips, moved, dropped), tips[h])
  {
  }

  lemma {:induction false} ShelveNew(p: Pool, hs: set<Hash>, h: Hash)
    requires TipsOk(p) && PendingOk(p) && h in Moved(p, {h}) && h !in Moved(p, hs)
    ensures Shelve(p, hs + {h}) == ShelveOne(Shelve(p, hs), h)
  {
    MovedStep(p, hs, h);
    var moved, dropped := Moved(p, hs), Dropped(p, hs);
    assert h !in p.pending && p.tips[h].hash == h;
    LookupStep(p.lookup, moved, dropped, h);
    PendingStep(p.pending, p.tips, moved, dropped, h);
    TipsStep(p.tips, moved, h);
    if p.tips[h].Sequencer? {
      assert Dropped(p, hs + {h}) == dropped + {h};
      WithoutTwice(p.order, dropped, h);
    } else {
      assert Dropped(p, hs + {h}) == dropped;
    }
  }

  lemma {:induction false} TipsStep(tips: map<Hash, Tx>, moved: set<Hash>, h: Hash)
    requires h in tips && h !in moved
    ensures tips - (moved + {h}) == tips - moved - {h} && h in tips - moved && (tips - moved)[h] == tips[h]
  {
  }

  // ---------------------------------------------------------------------------
  // After a confirmation
  // ---------------------------------------------------------------------------

  /** The normal transactions that stay, in the order they came. */
  function Survivors(p: Pool, order: seq<Hash>, elders: set<Hash>): seq<Tx> {
    if order == [] then []
    else
      var h := order[|order| - 1];
      Survivors(p, order[..|order| - 1], elders) +
      if h in p.lookup && h !in elders && p.lookup[h].tx.Normal? then [p.lookup[h].tx] else []
  }

  ghost predicate AllNormal(ts: seq<Tx>) {
    forall i :: 0 <= i < |ts| ==> ts[i].Normal?
  }

  ghost predicate DistinctHashes(ts: seq<Tx>) {
    forall i, j :: 0 <= i < j < |ts| ==> ts[i].hash != ts[j].hash
  }

  /** Entering a transaction changes no other transaction. */
  lemma {:induction false} EnterTxs(p: Pool, c: Chain, t: Tx, h: Hash)
    requires t.Normal? && h in Enter(p, c, t).lookup
    ensures if h in p.lookup && h != t.hash then Enter(p, c, t).lookup[h].tx == p.lookup[h].tx
            else h == t.hash && (Enter(p, c, t).lookup[h].tx == t || (h in p.lookup && Enter(p, c, t) == p))
  {
  }

  ghost predicate IsOneOf(ts: seq<Tx>, h: Hash, t: Tx) {
    exists i :: 0 <= i < |ts| && ts[i].hash == h && ts[i] == t
  }

  /** Only what is entered is in the pool. */
  lemma {:induction false} EnterAllKeys(c: Chain, ts: seq<Tx>, h: Hash)
    requires AllNormal(ts) && h in EnterAll(EMPTY, c, ts).lookup
    ensures IsOneOf(ts, h, EnterAll(EMPTY, c, ts).lookup[h].tx)
    decreases |ts|
  {
    var front, last := ts[..|ts| - 1], ts[|ts| - 1];
    var p := EnterAll(EMPTY, c, front);
    EnterTxs(p, c, last, h);
    if h in p.lookup && EnterAll(EMPTY, c, ts).lookup[h].tx == p.lookup[h].tx {
      EnterAllKeys(c, front, h);
      var i :| 0 <= i < |front| && front[i].hash == h && front[i] == p.lookup[h].tx;
      assert ts[i].hash == h;
    } else {
      assert ts[|ts| - 1] == last;
    }
  }

  lemma {:induction false} NotYetEntered(c: Chain, ts: seq<Tx>)
    requires AllNormal(ts) && DistinctHashes(ts) && ts != []
    ensures ts[|ts| - 1].hash !in EnterAll(EMPTY, c, ts[..|ts| - 1]).lookup
  {
    var front, last := ts[..|ts| - 1], ts[|ts| - 1];
    forall h | h in EnterAll(EMPTY, c, front).lookup ensures h != last.hash {
      EnterAllKeys(c, front, h);
      var i :| 0 <= i < |front| && front[i].hash == h;
      assert ts[i].hash == h;
    }
  }

  /** Transactions entered one after the other, each of them new, keep the invariant. */
  lemma {:induction false} EnterAllInv(c: Chain, ts: seq<Tx>)
    requires Indexed(c) && AllNormal(ts) && DistinctHashes(ts)
    requires forall i :: 0 <= i < |ts| ==> ts[i].hash !in ts[i].parents && (ts[i].hash in c.txs ==> c.txs[ts[i].hash] == ts[i])
    ensures Inv(EnterAll(EMPTY, c, ts), c)
    decreases |ts|
  {
    if ts == [] {
      EmptyInv(c);
    } else {
      var front, last := ts[..|ts| - 1], ts[|ts| - 1];
      EnterAllInv(c, front);
      NotYetEntered(c, ts);
      EnterInv(EnterAll(EMPTY, c, front), c, last);
    }
  }

  /** A transaction judged in the pool `q` and still there in `r`, later: gone if it was fatal, and else as it was judged. */
  ghost predicate Rejudged(q: Pool, r: Pool, c: Chain, t: Tx)
    requires t.Normal?
  {
    var quality := Judge(Queued(q, t), c, t);
    && (t.hash in r.lookup <==> quality != IsFatal)
    && (t.hash in r.lookup ==> r.lookup[t.hash].tx == t && (r.lookup[t.hash].status == Bad <==> quality == IsBad) && (Live(r.lookup[t.hash]) <==> quality == IsGood))
  }

  lemma {:induction false} EnterJudged(q: Pool, c: Chain, t: Tx)
    requires New(q, t)
    ensures Rejudged(q, Enter(q, c, t), c, t)
  {
  }

  /** Entering another transaction changes no judgement. */
  lemma {:induction false} StaysJudged(q: Pool, r: Pool, c: Chain, t: Tx, u: Tx)
    requires t.Normal? && Rejudged(q, r, c, t) && New(r, u) && u.hash != t.hash && ViewsOk(r)
    ensures Rejudged(q, Enter(r, c, u), c, t)
  {
    if Judge(Queued(r, u), c, u) == IsGood {
      EnterShape(r, c, u);
      assert EnteredAt(r, EnterGood(r, c, u), u, t.hash);
    }
  }

  /** Every transaction of the list ends as it was judged in the pool of those before it. */
  lemma {:induction false} EnterAllJudged(c: Chain, ts: seq<Tx>, k: nat)
    requires Indexed(c) && AllNormal(ts) && DistinctHashes(ts) && k < |ts|
    requires forall i :: 0 <= i < |ts| ==> ts[i].hash !in ts[i].parents && (ts[i].hash in c.txs ==> c.txs[ts[i].hash] == ts[i])
    ensures Rejudged(EnterAll(EMPTY, c, ts[..k]), EnterAll(EMPTY, c, ts), c, ts[k])
    decreases |ts|
  {
    var front, last := ts[..|ts| - 1], ts[|ts| - 1];
    NotYetEntered(c, ts);
    var r := EnterAll(EMPTY, c, front);
    if k == |ts| - 1 {
      EnterJudged(r, c, last);
    } else {
      EnterAllJudged(c, front, k);
      assert front[..k] == ts[..k];
      EnterAllInv(c, front);
      StaysJudged(EnterAll(EMPTY, c, ts[..k]), r, c, ts[k], last);
    }
  }

  /**
   Who is judged later is judged in a pool that holds whoever came before and stays: the earlier one
   is there, and there as it ends up.
   */
  lemma {:induction false} EarlierIsThere(c: Chain, ts: seq<Tx>, i: nat, j: nat)
    requires Indexed(c) && AllNormal(ts) && DistinctHashes(ts) && i < j < |ts|
    requires forall i :: 0 <= i < |ts| ==> ts[i].hash !in ts[i].parents && (ts[i].hash in c.txs ==> c.txs[ts[i].hash] == ts[i])
    ensures var q, r := EnterAll(EMPTY, c, ts[..j]), EnterAll(EMPTY, c, ts);
            && (ts[i].hash in q.lookup <==> ts[i].hash in r.lookup)
            && (ts[i].hash in q.lookup ==> (Live(q.lookup[ts[i].hash]) <==> Live(r.lookup[ts[i].hash])))
  {
    EnterAllJudged(c, ts, i);
    EnterAllJudged(c, ts[..j], i);
    assert ts[..j][..i] == ts[..i];
  }

  /** What was entered one after the other is listed in that order. */
  lemma {:induction false} EnterAllOrder(c: Chain, ts: seq<Tx>, i: nat, j: nat)
    requires Indexed(c) && AllNormal(ts) && DistinctHashes(ts) && i < j < |ts|
    requires forall i :: 0 <= i < |ts| ==> ts[i].hash !in ts[i].parents && (ts[i].hash in c.txs ==> c.txs[ts[i].hash] == ts[i])
    requires ts[i].hash in EnterAll(EMPTY, c, ts).lookup && ts[j].hash in EnterAll(EMPTY, c, ts).lookup
    ensures Before(EnterAll(EMPTY, c, ts).order, ts[i].hash, ts[j].hash)
    decreases |ts|
  {
    var front, last := ts[..|ts| - 1], ts[|ts| - 1];
    var q := EnterAll(EMPTY, c, front);
    NotYetEntered(c, ts);
    EnterAllInv(c, front);
    EnterAllInv(c, ts);
    EnterTxs(q, c, last, ts[i].hash);
    EnterTxs(q, c, last, ts[j].hash);
    if j < |front| { EnterAllOrder(c, front, i, j); }
    EnterBefore(q, c, last, ts[i].hash, ts[j].hash);
  }

  lemma {:induction false} EnterBefore(q: Pool, c: Chain, t: Tx, g: Hash, h: Hash)
    requires OrderOk(q) && New(q, t) && OrderOk(Enter(q, c, t)) && g in Enter(q, c, t).lookup && h in Enter(q, c, t).lookup && g != t.hash
    requires h == t.hash || Before(q.order, g, h)
    ensures Before(Enter(q, c, t).order, g, h)
  {
    if Judge(Queued(q, t), c, t) != IsFatal {
      EnterArrives(q, c, t);
      var order := Enter(q, c, t).order;
      assert g in order && h in order;
      if h == t.hash {
        var k :| 0 <= k < |order| && order[k] == g;
        assert order[k] == g && order[|order| - 1] == h;
      }
    }
  }

  /** Only sequencers that joined the tips are listed as such. */
  lemma {:induction false} EnterSeqListed(p: Pool, c: Chain, t: Tx, a: Address, n: nat)
    requires t.Normal?
    ensures SeqListed(Enter(p, c, t), a, n) <==> SeqListed(p, a, n)
  {
  }

  lemma {:induction false} EnterAllSeqListed(c: Chain, ts: seq<Tx>, a: Address, n: nat)
    ensures !SeqListed(EnterAll(EMPTY, c, ts), a, n)
    decreases |ts|
  {
    if ts != [] {
      EnterAllSeqListed(c, ts[..|ts| - 1], a, n);
      if ts[|ts| - 1].Normal? { EnterSeqListed(EnterAll(EMPTY, c, ts[..|ts| - 1]), c, ts[|ts| - 1], a, n); }
    }
  }

  /** After a confirmation the sequencer, and no other, is listed. */
  lemma {:induction false} SeqIsListed(p: Pool, c: Chain, s: Tx, a: Address, n: nat)
    requires FlowsOk(p, c) && FreshOk(p, c) && s.Sequencer? && (s.sender, s.nonce) in c.index && Balance(c.accounts, s.sender) >= 0 && !SeqListed(p, a, n)
    requires !SeqListed(p, s.sender, s.nonce)
    ensures SeqListed(SeqEnters(p, c, s), a, n) <==> (a, n) == (s.sender, s.nonce)
  {
    if s.sender in p.flows {
      var f := p.flows[s.sender];
      assert FlowOk(p, c, s.sender, f);
      forall n | n in f.list ensures n != s.nonce { assert ListedOk(p, c, s.sender, n, f.list[n]); }
    }
  }

  /** The sequencer itself: a tip, and the last nonce of its sender. */
  function SeqEnters(p: Pool, c: Chain, s: Tx): Pool {
    p.(flows := p.flows[s.sender := FlowAdd(FlowOf(p, c, s.sender), s)], tips := AddTo(p.tips, s))
  }

  /** The status of a hash that is in the lookup becomes tip. */
  function TakeTip(p: Pool, h: Hash): Pool {
    if h in p.lookup then p.(lookup := p.lookup[h := p.lookup[h].(status := Tip)]) else p
  }

  lemma {:induction false} SeqEntersInv(p: Pool, c: Chain, s: Tx)
    requires Inv(p, c) && s.Sequencer? && s.hash !in p.lookup && (s.sender, s.nonce) in c.index && Balance(c.accounts, s.sender) >= 0
    ensures Inv(SeqEnters(p, c, s), c)
  {
    var q := SeqEnters(p, c, s);
    SeqViews(p, q, c, s);
    SeqFlows(p, q, c, s);
    SameArrival(p, q);
  }

  lemma {:induction false} SameArrival(p: Pool, q: Pool)
    requires ArrivalOk(p) && q.lookup == p.lookup && q.order == p.order
    ensures ArrivalOk(q)
  {
    forall g, h | Good(q, g) && Good(q, h) && g in q.lookup[h].tx.parents ensures Before(q.order, g, h) {
      assert Good(p, g) && Good(p, h);
    }
  }

  lemma {:induction false} SeqViews(p: Pool, q: Pool, c: Chain, s: Tx)
    requires OrderOk(p) && LookupOk(p, c) && ViewsOk(p) && FrontierOk(p) && ParentsOk(p, c) && FreshOk(p, c)
    requires s.Sequencer? && s.hash !in p.lookup && q.lookup == p.lookup && q.order == p.order
    requires q.tips == AddTo(p.tips, s) && q.pending == p.pending && q.bad == p.bad
    ensures OrderOk(q) && LookupOk(q, c) && ViewsOk(q) && FrontierOk(q) && ParentsOk(q, c) && FreshOk(q, c)
  {
    SameFrontier(p, q, c);
    SeqTips(p, q, s);
  }

  lemma {:induction false} SeqTips(p: Pool, q: Pool, s: Tx)
    requires ViewsOk(p) && s.Sequencer? && s.hash !in p.lookup && q.lookup == p.lookup
    requires q.tips == AddTo(p.tips, s) && q.pending == p.pending && q.bad == p.bad
    ensures ViewsOk(q)
  {
    assert TipsOk(q);
    assert PendingOk(q);
    assert BadOk(q);
  }

  /** What only the lookup decides. */
  lemma {:induction false} SameFrontier(p: Pool, q: Pool, c: Chain)
    requires FrontierOk(p) && ParentsOk(p, c) && FreshOk(p, c) && q.lookup == p.lookup
    ensures FrontierOk(q) && ParentsOk(q, c) && FreshOk(q, c)
  {
    forall h ensures Good(q, h) <==> Good(p, h) {}
    forall h ensures Named(q, h) <==> Named(p, h) {
      if Named(p, h) { NamedSame(p, q, h); }
      if Named(q, h) { NamedSame(q, p, h); }
    }
  }

  lemma {:induction false} NamedSame(p: Pool, q: Pool, h: Hash)
    requires q.lookup == p.lookup && Named(p, h)
    ensures Named(q, h)
  {
    var k :| Good(p, k) && h in p.lookup[k].tx.parents;
    assert Good(q, k);
  }

  lemma {:induction false} SeqFlows(p: Pool, q: Pool, c: Chain, s: Tx)
    requires FlowsOk(p, c) && s.Sequencer? && (s.sender, s.nonce) in c.index && Balance(c.accounts, s.sender) >= 0 && FreshOk(p, c)
    requires q == SeqEnters(p, c, s)
    ensures FlowsOk(q, c)
  {
    forall a | a in q.flows ensures FlowOk(q, c, a, q.flows[a]) {
      SumSame(p.lookup.Keys, h => Spend(p, h, a), h => Spend(q, h, a));
      if a in p.flows { assert FlowOk(p, c, a, p.flows[a]); } else { NoFlow(p, c, a); }
      forall n | n in q.flows[a].list ensures ListedOk(q, c, a, n, q.flows[a].list[n]) {
        if a in p.flows && n in p.flows[a].list { assert ListedOk(p, c, a, n, p.flows[a].list[n]); }
      }
    }
    forall h | Good(q, h) ensures InFlow(q, q.lookup[h].tx) {
      assert Good(p, h) && InFlow(p, p.lookup[h].tx);
    }
  }

  // ---------------------------------------------------------------------------
  // What committing needs of the pool
  // ---------------------------------------------------------------------------

  /** A mention of a pool, which opens what is said about it below. */
  predicate Glance(p: Pool, n: int) {
    true
  }

  /** The order and the views agree with the lookup; opened only where the pool is glanced at. */
  ghost predicate Steady(p: Pool) {
    forall n {:trigger Glance(p, n)} :: Glance(p, n) ==> OrderOk(p) && ViewsOk(p)
  }

  lemma {:induction false} OpenSteady(p: Pool)
    requires Steady(p)
    ensures OrderOk(p) && ViewsOk(p)
  {
    assert Glance(p, 0);
  }

  /** Taking a transaction back out of the lookup. */
  lemma {:induction false} QueuedBack(p: Pool, t: Tx)
    requires t.hash !in p.lookup && Steady(p)
    ensures NoRepeats(Queued(p, t).order)
    ensures Without(Queued(p, t).order, {t.hash}) == p.order && Queued(p, t).lookup - {t.hash} == p.lookup
  {
    OpenSteady(p);
    assert t.hash !in p.order;
    WithoutLast(p.order, t.hash);
  }

  lemma {:induction false} QueuedSteady(p: Pool, t: Tx)
    requires New(p, t) && Steady(p)
    ensures NoRepeats(Queued(p, t).order) && TipsOk(Queued(p, t)) && PendingOk(Queued(p, t))
  {
    OpenSteady(p);
    QueuedBack(p, t);
  }
}
