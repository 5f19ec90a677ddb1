/**
 The transaction pool of core/tx_pool.go as a value: what entering a transaction does to it, the
 invariant of its reachable states, and the proof that every entered transaction keeps it.
 */
module PoolState {
  import opened Sums
  import opened Ledger
  import opened Dag

  /** A transaction is not in the lookup, or has one of these statuses there. */
  datatype Status = Queue | Tip | Bad | Pending

  datatype Env = Env(tx: Tx, status: Status)

  /** An account's spending within the pool. */
  datatype Flow = Flow(origin: int, spent: int, list: map<nat, Tx>)

  datatype Pool = Pool(
    lookup: map<Hash, Env>,
    order: seq<Hash>,
    tips: map<Hash, Tx>,
    bad: map<Hash, Tx>,
    pending: map<Hash, Tx>,
    flows: map<Address, Flow>)

  datatype Quality = IsBad | IsGood | IsFatal

  const EMPTY := Pool(map[], [], map[], map[], map[], map[])

  function ValueOf(t: Tx): nat {
    if t.Normal? then t.value else 0
  }

  // ---------------------------------------------------------------------------
  // Judging
  // ---------------------------------------------------------------------------

  /** The first parent that is bad, or that is nowhere, decides. */
  function JudgeParents(p: Pool, c: Chain, parents: seq<Hash>): Quality {
    if parents == [] then IsGood
    else if parents[0] in p.lookup then
      if p.lookup[parents[0]].status == Bad then IsBad else JudgeParents(p, c, parents[1..])
    else if parents[0] in c.txs then JudgeParents(p, c, parents[1..])
    else IsFatal
  }

  function FlowOf(p: Pool, c: Chain, a: Address): Flow {
    if a in p.flows then p.flows[a] else Flow(Balance(c.accounts, a), 0, map[])
  }

  function Judge(p: Pool, c: Chain, t: Tx): Quality
    requires t.Normal?
  {
    var parents := JudgeParents(p, c, t.parents);
    var flow := FlowOf(p, c, t.sender);
    if parents != IsGood then parents
    else if t.nonce in flow.list then (if flow.list[t.nonce].hash == t.hash then IsFatal else IsBad)
    else if (t.sender, t.nonce) in c.index then IsFatal
    else if t.value > flow.origin then IsFatal
    else if flow.spent + t.value > flow.origin then IsBad
    else IsGood
  }

  // ---------------------------------------------------------------------------
  // Entering
  // ---------------------------------------------------------------------------

  function Queued(p: Pool, t: Tx): Pool {
    p.(lookup := p.lookup[t.hash := Env(t, Queue)], order := p.order + [t.hash])
  }

  /** The tips among the given hashes. */
  function Moved(p: Pool, hs: set<Hash>): set<Hash> {
    set h | h in hs && h in p.lookup && p.lookup[h].status == Tip && h in p.tips
  }

  function Dropped(p: Pool, hs: set<Hash>): set<Hash> {
    set h | h in Moved(p, hs) && p.tips[h].Sequencer?
  }

  function Without(order: seq<Hash>, hs: set<Hash>): seq<Hash> {
    if order == [] then [] else Without(order[..|order| - 1], hs) + if order[|order| - 1] in hs then [] else [order[|order| - 1]]
  }

  /** The tips among the given hashes become pending, and sequencers leave the pool. */
  function Shelve(p: Pool, hs: set<Hash>): Pool {
    var moved, dropped := Moved(p, hs), Dropped(p, hs);
    p.(lookup := LookupAfter(p.lookup, moved, dropped),
       order := Without(p.order, dropped),
       tips := p.tips - moved,
       pending := PendingAfter(p.pending, p.tips, moved, dropped))
  }

  function LookupAfter(lookup: map<Hash, Env>, moved: set<Hash>, dropped: set<Hash>): map<Hash, Env> {
    map h | h in lookup && h !in dropped :: if h in moved then Env(lookup[h].tx, Pending) else lookup[h]
  }

  function PendingAfter(pending: map<Hash, Tx>, tips: map<Hash, Tx>, moved: set<Hash>, dropped: set<Hash>): map<Hash, Tx> {
    pending + map h | h in moved && h in tips && h !in dropped :: tips[h]
  }

  function FlowAdd(f: Flow, t: Tx): Flow {
    if t.nonce in f.list || f.spent + ValueOf(t) > f.origin then f
    else Flow(f.origin, f.spent + ValueOf(t), f.list[t.nonce := t])
  }

  function ParentSet(t: Tx): set<Hash> {
    set h | h in t.parents
  }

  /** A good transaction becomes a tip, and the tips it names become pending. */
  function EnterGood(p: Pool, c: Chain, t: Tx): Pool {
    var q := Shelve(Queued(p, t), ParentSet(t));
    q.(lookup := q.lookup[t.hash := Env(t, Tip)], tips := q.tips[t.hash := t],
       flows := q.flows[t.sender := FlowAdd(FlowOf(q, c, t.sender), t)])
  }

  function EnterBad(p: Pool, t: Tx): Pool {
    p.(lookup := p.lookup[t.hash := Env(t, Bad)], order := p.order + [t.hash], bad := p.bad[t.hash := t])
  }

  /** One transaction event: a fatal transaction leaves no trace. */
  function Enter(p: Pool, c: Chain, t: Tx): Pool
    requires t.Normal?
  {
    match Judge(Queued(p, t), c, t)
    case IsFatal => p
    case IsBad => EnterBad(p, t)
    case IsGood => EnterGood(p, c, t)
  }

  // ---------------------------------------------------------------------------
  // The invariant
  // ---------------------------------------------------------------------------

  predicate Live(e: Env) {
    e.status == Tip || e.status == Pending
  }

  /** A normal transaction that was judged good. */
  predicate Good(p: Pool, h: Hash) {
    h in p.lookup && p.lookup[h].tx.Normal? && Live(p.lookup[h])
  }

  /** A good transaction names `h` as a parent. */
  ghost predicate Named(p: Pool, h: Hash) {
    exists k :: Good(p, k) && h in p.lookup[k].tx.parents
  }

  /** `order` lists the lookup keys once each. */
  ghost predicate OrderOk(p: Pool) {
    && (forall h :: h in p.order <==> h in p.lookup)
    && (forall i, j :: 0 <= i < j < |p.order| ==> p.order[i] != p.order[j])
  }

  ghost predicate LookupOk(p: Pool, c: Chain) {
    && (forall h :: h in p.lookup ==> p.lookup[h].tx.hash == h && p.lookup[h].status != Queue)
    && (forall h :: h in p.lookup && p.lookup[h].tx.Sequencer? ==> p.lookup[h].status == Tip && h in c.txs)
  }

  /** Tips, bad and pending transactions agree with the lookup status; a tip outside the lookup is a sequencer. */
  ghost predicate ViewsOk(p: Pool) {
    TipsOk(p) && PendingOk(p) && BadOk(p)
  }

  ghost predicate TipsOk(p: Pool) {
    && (forall h :: h in p.lookup && p.lookup[h].status == Tip ==> h in p.tips && p.tips[h] == p.lookup[h].tx)
    && (forall h :: h in p.tips ==> p.tips[h].hash == h && (p.tips[h].Normal? ==> h in p.lookup && p.lookup[h].status == Tip))
  }

  ghost predicate PendingOk(p: Pool) {
    && (forall h :: h in p.pending <==> h in p.lookup && p.lookup[h].status == Pending)
    && (forall h :: h in p.pending ==> p.pending[h] == p.lookup[h].tx)
  }

  ghost predicate BadOk(p: Pool) {
    && (forall h :: h in p.bad <==> h in p.lookup && p.lookup[h].status == Bad)
    && (forall h :: h in p.bad ==> p.bad[h] == p.lookup[h].tx)
  }

  /** Among good transactions, exactly those that no good transaction names are tips. */
  ghost predicate FrontierOk(p: Pool) {
    forall h :: Good(p, h) ==> (p.lookup[h].status == Tip <==> !Named(p, h))
  }

  /** The parents of a good transaction are good, or confirmed. */
  ghost predicate ParentsOk(p: Pool, c: Chain) {
    forall k, h :: Good(p, k) && h in p.lookup[k].tx.parents ==> (h in p.lookup && Live(p.lookup[h])) || h in c.txs
  }

  ghost function Spend(p: Pool, h: Hash, a: Address): int {
    if Good(p, h) && p.lookup[h].tx.sender == a then p.lookup[h].tx.value else 0
  }

  /** What the good transactions of an account spend together. */
  ghost function Spent(p: Pool, a: Address): int {
    Sum(p.lookup.Keys, h => Spend(p, h, a))
  }

  /** A listed transaction is good, or the sequencer that was confirmed last. */
  ghost predicate ListedOk(p: Pool, c: Chain, a: Address, n: nat, t: Tx) {
    && t.sender == a && t.nonce == n
    && (t.Normal? ==> Good(p, t.hash) && p.lookup[t.hash].tx == t)
    && (t.Sequencer? ==> (a, n) in c.index)
  }

  ghost predicate FlowListOk(p: Pool, c: Chain, a: Address, f: Flow) {
    forall n :: n in f.list ==> ListedOk(p, c, a, n, f.list[n])
  }

  /** The account's spending is that of its good transactions, and the confirmed balance pays for it. */
  ghost predicate FlowOk(p: Pool, c: Chain, a: Address, f: Flow) {
    f.origin == Balance(c.accounts, a) && f.spent == Spent(p, a) && f.spent <= f.origin && FlowListOk(p, c, a, f)
  }

  ghost predicate FlowsOk(p: Pool, c: Chain) {
    && (forall a :: a in p.flows ==> FlowOk(p, c, a, p.flows[a]))
    && (forall h :: Good(p, h) ==> InFlow(p, p.lookup[h].tx))
  }

  predicate InFlow(p: Pool, t: Tx) {
    t.sender in p.flows && t.nonce in p.flows[t.sender].list && p.flows[t.sender].list[t.nonce] == t
  }

  ghost predicate FreshOk(p: Pool, c: Chain) {
    forall h :: Good(p, h) ==> (p.lookup[h].tx.sender, p.lookup[h].tx.nonce) !in c.index
  }

  ghost predicate Inv(p: Pool, c: Chain) {
    && OrderOk(p) && LookupOk(p, c) && ViewsOk(p) && FrontierOk(p) && ParentsOk(p, c) && FlowsOk(p, c) && FreshOk(p, c) && ArrivalOk(p)
  }

  /** No two good transactions use the same nonce of the same sender. */
  lemma {:induction false} NoncesDistinct(p: Pool, c: Chain, g: Hash, h: Hash)
    requires Inv(p, c) && Good(p, g) && Good(p, h) && g != h
    ensures (p.lookup[g].tx.sender, p.lookup[g].tx.nonce) != (p.lookup[h].tx.sender, p.lookup[h].tx.nonce)
  {
    assert InFlow(p, p.lookup[g].tx) && InFlow(p, p.lookup[h].tx);
  }

  // ---------------------------------------------------------------------------
  // When a transaction is good, bad or fatal
  // ---------------------------------------------------------------------------

  /** A parent is live in the pool or, if the pool does not know it, confirmed. */
  predicate ParentFine(p: Pool, c: Chain, h: Hash) {
    if h in p.lookup then Live(p.lookup[h]) else h in c.txs
  }

  /** The parent at `i` is the first that is not fine. */
  ghost predicate FirstFault(p: Pool, c: Chain, t: Tx, i: int) {
    && 0 <= i < |t.parents| && !ParentFine(p, c, t.parents[i])
    && forall j :: 0 <= j < i ==> ParentFine(p, c, t.parents[j])
  }

  ghost predicate ParentsFine(p: Pool, c: Chain, t: Tx) {
    forall h :: h in t.parents ==> ParentFine(p, c, h)
  }

  /** The first parent that is not fine is in the pool, and so is bad. */
  ghost predicate BadParent(p: Pool, c: Chain, t: Tx) {
    exists i :: FirstFault(p, c, t, i) && t.parents[i] in p.lookup
  }

  /** The first parent that is not fine is neither in the pool nor confirmed. */
  ghost predicate LostParent(p: Pool, c: Chain, t: Tx) {
    exists i :: FirstFault(p, c, t, i) && t.parents[i] !in p.lookup
  }

  /** A good transaction of the pool has the same sender and nonce. */
  ghost predicate Taken(p: Pool, t: Tx) {
    exists h :: Good(p, h) && p.lookup[h].tx.sender == t.sender && p.lookup[h].tx.nonce == t.nonce
  }

  /** The sender's flow lists a sequencer under the nonce. */
  predicate SeqListed(p: Pool, a: Address, n: nat) {
    a in p.flows && n in p.flows[a].list && p.flows[a].list[n].Sequencer?
  }

  /** The transaction itself, as if it were a sequencer, is listed. */
  predicate SelfListed(p: Pool, t: Tx) {
    SeqListed(p, t.sender, t.nonce) && p.flows[t.sender].list[t.nonce].hash == t.hash
  }

  /** Good: its parents are fine, its nonce is unused, and the confirmed balance pays for it and all that is pooled. */
  ghost predicate Sound(p: Pool, c: Chain, t: Tx)
    requires t.Normal?
  {
    && ParentsFine(p, c, t) && !Taken(p, t) && (t.sender, t.nonce) !in c.index
    && Spent(p, t.sender) + t.value <= Balance(c.accounts, t.sender)
  }

  /** Bad: it could become good, if others lose against it. */
  ghost predicate Suspect(p: Pool, c: Chain, t: Tx)
    requires t.Normal?
  {
    || BadParent(p, c, t)
    || (&& ParentsFine(p, c, t)
        && (|| Taken(p, t) || (SeqListed(p, t.sender, t.nonce) && !SelfListed(p, t))
            || (&& (t.sender, t.nonce) !in c.index
                && t.value <= Balance(c.accounts, t.sender) < Spent(p, t.sender) + t.value)))
  }

  /** Fatal: it can never be confirmed on this ledger. */
  ghost predicate Hopeless(p: Pool, c: Chain, t: Tx)
    requires t.Normal?
  {
    || LostParent(p, c, t)
    || (&& ParentsFine(p, c, t) && !Taken(p, t)
        && (|| SelfListed(p, t) || (!SeqListed(p, t.sender, t.nonce) && (t.sender, t.nonce) in c.index)
            || ((t.sender, t.nonce) !in c.index && t.value > Balance(c.accounts, t.sender))))
  }

  lemma {:induction false} JudgeParentsExactly(p: Pool, c: Chain, t: Tx, k: nat)
    requires LookupOk(p, c) && t.hash !in t.parents && k <= |t.parents|
    requires forall j :: 0 <= j < k ==> ParentFine(p, c, t.parents[j])
    ensures JudgeParents(Queued(p, t), c, t.parents[k..]) == IsGood <==> ParentsFine(p, c, t)
    ensures JudgeParents(Queued(p, t), c, t.parents[k..]) == IsBad <==> BadParent(p, c, t)
    ensures JudgeParents(Queued(p, t), c, t.parents[k..]) == IsFatal <==> LostParent(p, c, t)
    decreases |t.parents| - k
  {
    if k < |t.parents| {
      var h := t.parents[k];
      assert h in t.parents && t.parents[k..][1..] == t.parents[k + 1..];
      if ParentFine(p, c, h) {
        JudgeParentsExactly(p, c, t, k + 1);
      } else {
        assert FirstFault(p, c, t, k);
        forall i | FirstFault(p, c, t, i) ensures i == k {}
      }
    }
  }

  /** What the sender's flow lists is taken in the pool, or a sequencer, and its spending is that of the pool. */
  lemma {:induction false} FlowTells(p: Pool, c: Chain, t: Tx)
    requires FlowsOk(p, c) && FreshOk(p, c) && New(p, t)
    ensures var f := FlowOf(p, c, t.sender);
            && f.origin == Balance(c.accounts, t.sender) && f.spent == Spent(p, t.sender)
            && (t.nonce in f.list <==> Taken(p, t) || SeqListed(p, t.sender, t.nonce))
            && (t.nonce in f.list && f.list[t.nonce].hash == t.hash <==> SelfListed(p, t))
            && !(Taken(p, t) && SeqListed(p, t.sender, t.nonce))
            && (Taken(p, t) ==> (t.sender, t.nonce) !in c.index) && (SeqListed(p, t.sender, t.nonce) ==> (t.sender, t.nonce) in c.index)
  {
    var a := t.sender;
    if a in p.flows { assert FlowOk(p, c, a, p.flows[a]); } else { NoFlow(p, c, a); }
    if h :| Good(p, h) && p.lookup[h].tx.sender == a && p.lookup[h].tx.nonce == t.nonce { assert InFlow(p, p.lookup[h].tx); }
    if a in p.flows && t.nonce in p.flows[a].list { assert ListedOk(p, c, a, t.nonce, p.flows[a].list[t.nonce]); }
  }

  /** When a new transaction is judged good, bad or fatal, said by the lookup, the ledger and what is spent. */
  lemma {:induction false} JudgedExactly(p: Pool, c: Chain, t: Tx)
    requires Inv(p, c) && New(p, t)
    ensures Judge(Queued(p, t), c, t) == IsGood <==> Sound(p, c, t)
    ensures Judge(Queued(p, t), c, t) == IsBad <==> Suspect(p, c, t)
    ensures Judge(Queued(p, t), c, t) == IsFatal <==> Hopeless(p, c, t)
  {
    JudgeParentsExactly(p, c, t, 0);
    assert t.parents[0..] == t.parents;
    FlowTells(p, c, t);
    SpentNonNegative(p, t.sender);
    assert FlowOf(Queued(p, t), c, t.sender) == FlowOf(p, c, t.sender);
  }

  lemma {:induction false} SpentNonNegative(p: Pool, a: Address)
    ensures Spent(p, a) >= 0
  {
    SumNonNegative(p.lookup.Keys, h => Spend(p, h, a));
  }

  // ---------------------------------------------------------------------------
  // The order of arrival
  // ---------------------------------------------------------------------------

  /** `g` is listed before `h`. */
  ghost predicate Before(order: seq<Hash>, g: Hash, h: Hash) {
    exists i, j :: 0 <= i < j < |order| && order[i] == g && order[j] == h
  }

  /** A good parent is listed before its good child. */
  ghost predicate ArrivalOk(p: Pool) {
    forall g, h {:trigger Before(p.order, g, h)} :: Good(p, g) && Good(p, h) && g in p.lookup[h].tx.parents ==> Before(p.order, g, h)
  }

  lemma {:induction false} BeforeAppend(order: seq<Hash>, x: Hash, g: Hash, h: Hash)
    ensures Before(order + [x], g, h) <==> Before(order, g, h) || (h == x && g in order)
  {
    var all := order + [x];
    if Before(order, g, h) {
      var i, j :| 0 <= i < j < |order| && order[i] == g && order[j] == h;
      assert all[i] == g && all[j] == h;
    }
    if h == x && g in order {
      var i :| 0 <= i < |order| && order[i] == g;
      assert all[i] == g && all[|order|] == h;
    }
    if Before(all, g, h) {
      var i, j :| 0 <= i < j < |all| && all[i] == g && all[j] == h;
      assert order[i] == g && (j < |order| ==> order[j] == h);
    }
  }

  /** Taking hashes out changes no order among the others. */
  lemma {:induction false} WithoutBefore(order: seq<Hash>, hs: set<Hash>, g: Hash, h: Hash)
    requires g !in hs && h !in hs
    ensures Before(Without(order, hs), g, h) <==> Before(order, g, h)
    ensures g in Without(order, hs) <==> g in order
    decreases |order|
  {
    if order != [] {
      var front, last := order[..|order| - 1], order[|order| - 1];
      assert order == front + [last];
      WithoutBefore(front, hs, g, h);
      BeforeAppend(front, last, g, h);
      BeforeAppend(Without(front, hs), last, g, h);
      assert Without(front, hs) + [] == Without(front, hs);
    }
  }

  /** The new hash is listed last, and the others as they were. */
  ghost predicate Arrives(order: seq<Hash>, order': seq<Hash>, x: Hash) {
    && order' != [] && order'[|order'| - 1] == x
    && forall g, h {:trigger Before(order', g, h)} :: g in order' && h in order' && g != x && h != x ==> (Before(order', g, h) <==> Before(order, g, h))
  }

  lemma {:induction false} ArrivesWithout(order: seq<Hash>, hs: set<Hash>, x: Hash)
    requires x !in order && x !in hs
    ensures Arrives(order, Without(order + [x], hs), x)
    ensures forall g :: g in Without(order + [x], hs) ==> g !in hs && (g in order || g == x)
  {
    var order' := Without(order + [x], hs);
    assert (order + [x])[..|order|] == order && (order + [x])[|order|] == x;
    forall g | g in order' ensures g !in hs && (g in order || g == x) { WithoutIn(order + [x], hs, g); }
    forall g, h | g in order' && h in order' && g != x && h != x ensures Before(order', g, h) <==> Before(order, g, h) {
      WithoutBefore(order + [x], hs, g, h);
      BeforeAppend(order, x, g, h);
    }
  }

  lemma {:induction false} WithoutIn(order: seq<Hash>, hs: set<Hash>, g: Hash)
    ensures g in Without(order, hs) <==> g in order && g !in hs
    decreases |order|
  {
    if order != [] {
      WithoutIn(order[..|order| - 1], hs, g);
      assert order == order[..|order| - 1] + [order[|order| - 1]];
    }
  }

  /** Whoever enters is listed last. */
  lemma {:induction false} EnterArrives(p: Pool, c: Chain, t: Tx)
    requires OrderOk(p) && New(p, t) && Judge(Queued(p, t), c, t) != IsFatal
    ensures Arrives(p.order, Enter(p, c, t).order, t.hash)
  {
    assert t.hash !in p.order;
    ArrivesWithout(p.order, Dropped(Queued(p, t), ParentSet(t)), t.hash);
    ArrivesWithout(p.order, {}, t.hash);
    WithoutNone(p.order + [t.hash]);
  }

  lemma {:induction false} WithoutNone(order: seq<Hash>)
    ensures Without(order, {}) == order
    decreases |order|
  {
    if order != [] {
      WithoutNone(order[..|order| - 1]);
      assert order == order[..|order| - 1] + [order[|order| - 1]];
    }
  }

  lemma {:induction false} EnterArrival(p: Pool, q: Pool, c: Chain, t: Tx)
    requires ArrivalOk(p) && OrderOk(p) && ParentsOk(p, c) && New(p, t) && t.hash !in c.txs && Entered(p, q, t)
    requires OrderOk(q) && Arrives(p.order, q.order, t.hash)
    ensures ArrivalOk(q)
  {
    forall g, h | Good(q, g) && Good(q, h) && g in q.lookup[h].tx.parents ensures Before(q.order, g, h) {
      EnterGoods(p, q, t, g);
      EnterGoods(p, q, t, h);
      assert g in q.order && h in q.order;
      if h == t.hash {
        var i :| 0 <= i < |q.order| && q.order[i] == g;
        assert q.order[i] == g && q.order[|q.order| - 1] == h;
      } else {
        assert g != t.hash && Before(p.order, g, h);
      }
    }
  }

  // ---------------------------------------------------------------------------
  // Shelving
  // ---------------------------------------------------------------------------

  lemma {:induction false} WithoutOk(order: seq<Hash>, hs: set<Hash>)
    requires forall i, j :: 0 <= i < j < |order| ==> order[i] != order[j]
    ensures forall h :: h in Without(order, hs) <==> h in order && h !in hs
    ensures forall i, j :: 0 <= i < j < |Without(order, hs)| ==> Without(order, hs)[i] != Without(order, hs)[j]
    decreases |order|
  {
    if order != [] {
      var front, last := order[..|order| - 1], order[|order| - 1];
      WithoutOk(front, hs);
      assert order == front + [last] && last !in front;
      assert last !in Without(front, hs);
    }
  }

  /** What judging good says about the parents. */
  lemma {:induction false} JudgedParents(p: Pool, c: Chain, parents: seq<Hash>)
    requires JudgeParents(p, c, parents) == IsGood
    ensures forall h :: h in parents ==> (if h in p.lookup then p.lookup[h].status != Bad else h in c.txs)
    decreases |parents|
  {
    if parents != [] {
      JudgedParents(p, c, parents[1..]);
      assert parents == [parents[0]] + parents[1..];
    }
  }

  // ---------------------------------------------------------------------------
  // Entering a good transaction
  // ---------------------------------------------------------------------------

  /** `h` is a tip that the new transaction names. */
  predicate Covers(p: Pool, t: Tx, h: Hash) {
    h in t.parents && h in p.lookup && p.lookup[h].status == Tip
  }

  /** What entering a good transaction does to the old entry of `h`. */
  ghost predicate EnteredAt(p: Pool, q: Pool, t: Tx, h: Hash) {
    && (h in q.lookup <==> h == t.hash || (h in p.lookup && !(Covers(p, t, h) && p.lookup[h].tx.Sequencer?)))
    && (h in q.lookup && h != t.hash ==> q.lookup[h] == if Covers(p, t, h) then Env(p.lookup[h].tx, Pending) else p.lookup[h])
    && (h in q.tips <==> h == t.hash || (h in p.tips && !Covers(p, t, h)))
    && (h in q.tips && h != t.hash ==> q.tips[h] == p.tips[h])
    && (h in q.pending <==> h in p.pending || (Covers(p, t, h) && p.lookup[h].tx.Normal?))
    && (h in q.pending ==> q.pending[h] == if Covers(p, t, h) then p.lookup[h].tx else p.pending[h])
  }

  ghost predicate Entered(p: Pool, q: Pool, t: Tx) {
    && (forall h {:trigger EnteredAt(p, q, t, h)} :: EnteredAt(p, q, t, h))
    && t.hash in q.lookup && q.lookup[t.hash] == Env(t, Tip) && t.hash in q.tips && q.tips[t.hash] == t && q.bad == p.bad
  }

  /** A new transaction: unknown to the pool, and not its own parent. */
  predicate New(p: Pool, t: Tx) {
    t.Normal? && t.hash !in p.lookup && t.hash !in t.parents
  }

  lemma {:induction false} EnterShape(p: Pool, c: Chain, t: Tx)
    requires ViewsOk(p) && New(p, t)
    ensures Entered(p, EnterGood(p, c, t), t)
  {
    var q := EnterGood(p, c, t);
    forall h ensures EnteredAt(p, q, t, h) {
      assert h in Moved(Queued(p, t), ParentSet(t)) <==> Covers(p, t, h);
    }
  }

  lemma {:induction false} EnterOrder(p: Pool, c: Chain, t: Tx)
    requires ViewsOk(p) && OrderOk(p) && New(p, t)
    ensures OrderOk(EnterGood(p, c, t))
  {
    EnterShape(p, c, t);
    var q := EnterGood(p, c, t);
    var dropped := Dropped(Queued(p, t), ParentSet(t));
    WithoutOk(p.order + [t.hash], dropped);
    forall h ensures h in q.order <==> h in q.lookup {
      assert EnteredAt(p, q, t, h);
      assert h in dropped <==> Covers(p, t, h) && p.lookup[h].tx.Sequencer?;
    }
  }

  lemma {:induction false} EnterLookup(p: Pool, q: Pool, c: Chain, t: Tx)
    requires LookupOk(p, c) && New(p, t) && Entered(p, q, t)
    ensures LookupOk(q, c)
  {
    forall h | h in q.lookup ensures q.lookup[h].tx.hash == h && q.lookup[h].status != Queue { assert EnteredAt(p, q, t, h); }
    forall h | h in q.lookup && q.lookup[h].tx.Sequencer? ensures q.lookup[h].status == Tip && h in c.txs { assert EnteredAt(p, q, t, h); }
  }

  lemma {:induction false} EnterTips(p: Pool, q: Pool, t: Tx)
    requires TipsOk(p) && New(p, t) && Entered(p, q, t)
    ensures TipsOk(q)
  {
    forall h | h in q.lookup && q.lookup[h].status == Tip ensures h in q.tips && q.tips[h] == q.lookup[h].tx { assert EnteredAt(p, q, t, h); }
    forall h | h in q.tips ensures q.tips[h].hash == h && (q.tips[h].Normal? ==> h in q.lookup && q.lookup[h].status == Tip) {
      assert EnteredAt(p, q, t, h);
    }
  }

  lemma {:induction false} EnterViews(p: Pool, q: Pool, c: Chain, t: Tx)
    requires LookupOk(p, c) && PendingOk(p) && BadOk(p) && New(p, t) && Entered(p, q, t)
    ensures PendingOk(q) && BadOk(q)
  {
    forall h ensures h in q.pending <==> h in q.lookup && q.lookup[h].status == Pending { assert EnteredAt(p, q, t, h); }
    forall h | h in q.pending ensures q.pending[h] == q.lookup[h].tx { assert EnteredAt(p, q, t, h); }
    forall h ensures h in q.bad <==> h in q.lookup && q.lookup[h].status == Bad { assert EnteredAt(p, q, t, h); }
    forall h | h in q.bad ensures q.bad[h] == q.lookup[h].tx { assert EnteredAt(p, q, t, h); }
  }

  lemma {:induction false} EnterGoods(p: Pool, q: Pool, t: Tx, h: Hash)
    requires New(p, t) && Entered(p, q, t)
    ensures Good(q, h) <==> Good(p, h) || h == t.hash
    ensures Good(q, h) ==> q.lookup[h].tx == if h == t.hash then t else p.lookup[h].tx
    ensures Good(q, h) ==> (q.lookup[h].status == Tip <==> h == t.hash || (p.lookup[h].status == Tip && h !in t.parents))
  {
    assert EnteredAt(p, q, t, h);
  }

  /** The new transaction is named by nobody, and its parents are named by it. */
  lemma {:induction false} EnterNamed(p: Pool, q: Pool, c: Chain, t: Tx, h: Hash)
    requires ParentsOk(p, c) && New(p, t) && t.hash !in c.txs && Entered(p, q, t)
    ensures Named(q, h) <==> (h != t.hash && Named(p, h)) || h in t.parents
  {
    forall k ensures Good(q, k) && h in q.lookup[k].tx.parents <==>
                     (Good(p, k) && h in p.lookup[k].tx.parents) || (k == t.hash && h in t.parents)
    {
      EnterGoods(p, q, t, k);
    }
    if h in t.parents { assert Good(q, t.hash); }
  }

  lemma {:induction false} EnterFrontier(p: Pool, q: Pool, c: Chain, t: Tx)
    requires FrontierOk(p) && ParentsOk(p, c) && New(p, t) && t.hash !in c.txs && Entered(p, q, t)
    ensures FrontierOk(q)
  {
    forall h | Good(q, h) ensures q.lookup[h].status == Tip <==> !Named(q, h) {
      EnterGoods(p, q, t, h);
      EnterNamed(p, q, c, t, h);
    }
  }

  lemma {:induction false} EnterParents(p: Pool, q: Pool, c: Chain, t: Tx)
    requires LookupOk(p, c) && ParentsOk(p, c) && New(p, t) && Entered(p, q, t)
    requires forall h :: h in t.parents ==> (h in p.lookup && Live(p.lookup[h])) || h in c.txs
    ensures ParentsOk(q, c)
  {
    forall k, h | Good(q, k) && h in q.lookup[k].tx.parents ensures (h in q.lookup && Live(q.lookup[h])) || h in c.txs {
      EnterGoods(p, q, t, k);
      assert EnteredAt(p, q, t, h);
    }
  }

  /** The account of the new transaction spends its value more, and no other account changes. */
  lemma {:induction false} EnterSpent(p: Pool, q: Pool, t: Tx, a: Address)
    requires New(p, t) && Entered(p, q, t)
    ensures Spent(q, a) == Spent(p, a) + if a == t.sender then t.value else 0
  {
    var f, g := (h => Spend(p, h, a)), (h => Spend(q, h, a));
    forall h ensures g(h) == f(h) + if h == t.hash then Spend(q, h, a) else 0 { EnterGoods(p, q, t, h); }
    forall h | h in q.lookup.Keys - {t.hash} ensures h in p.lookup { assert EnteredAt(p, q, t, h); }
    forall h | h in p.lookup.Keys - (q.lookup.Keys - {t.hash}) ensures f(h) == 0 {
      EnterGoods(p, q, t, h);
    }
    SumRemove(q.lookup.Keys, g, t.hash);
    SumSame(q.lookup.Keys - {t.hash}, f, g);
    SumExtend(q.lookup.Keys - {t.hash}, p.lookup.Keys, f);
    EnterGoods(p, q, t, t.hash);
  }

  lemma {:induction false} EnterFlows(p: Pool, q: Pool, c: Chain, t: Tx)
    requires FlowsOk(p, c) && New(p, t) && Entered(p, q, t)
    requires q.flows == p.flows[t.sender := FlowAdd(FlowOf(p, c, t.sender), t)]
    requires t.nonce !in FlowOf(p, c, t.sender).list && FlowOf(p, c, t.sender).spent + t.value <= FlowOf(p, c, t.sender).origin
    ensures FlowsOk(q, c)
  {
    forall a | a in q.flows ensures FlowOk(q, c, a, q.flows[a]) {
      EnterSpent(p, q, t, a);
      if a in p.flows { assert FlowOk(p, c, a, p.flows[a]); } else { NoFlow(p, c, a); }
      forall n | n in q.flows[a].list ensures ListedOk(q, c, a, n, q.flows[a].list[n]) {
        EnterGoods(p, q, t, q.flows[a].list[n].hash);
        if !(a == t.sender && n == t.nonce) { assert ListedOk(p, c, a, n, p.flows[a].list[n]); }
      }
    }
    forall h | Good(q, h) ensures InFlow(q, q.lookup[h].tx) {
      EnterGoods(p, q, t, h);
      if h != t.hash { assert InFlow(p, p.lookup[h].tx); }
    }
  }

  /** An account without a flow has no good transactions. */
  lemma {:induction false} NoFlow(p: Pool, c: Chain, a: Address)
    requires FlowsOk(p, c) && a !in p.flows
    ensures Spent(p, a) == 0
  {
    forall h | h in p.lookup ensures Spend(p, h, a) == 0 {
      assert Good(p, h) ==> InFlow(p, p.lookup[h].tx);
    }
    SumExtend({}, p.lookup.Keys, h => Spend(p, h, a));
  }

  lemma {:induction false} EnterFresh(p: Pool, q: Pool, c: Chain, t: Tx)
    requires FreshOk(p, c) && New(p, t) && Entered(p, q, t) && (t.sender, t.nonce) !in c.index
    ensures FreshOk(q, c)
  {
    forall h | Good(q, h) ensures (q.lookup[h].tx.sender, q.lookup[h].tx.nonce) !in c.index {
      EnterGoods(p, q, t, h);
    }
  }

  lemma {:induction false} GoodParents(p: Pool, c: Chain, t: Tx)
    requires LookupOk(p, c) && New(p, t) && Judge(Queued(p, t), c, t) == IsGood
    ensures forall h :: h in t.parents ==> (h in p.lookup && Live(p.lookup[h])) || h in c.txs
  {
    JudgedParents(Queued(p, t), c, t.parents);
  }

  lemma {:induction false} EnterGoodViews(p: Pool, c: Chain, t: Tx)
    requires OrderOk(p) && LookupOk(p, c) && ViewsOk(p) && New(p, t)
    ensures OrderOk(EnterGood(p, c, t)) && LookupOk(EnterGood(p, c, t), c) && ViewsOk(EnterGood(p, c, t))
  {
    var q := EnterGood(p, c, t);
    EnterShape(p, c, t);
    EnterOrder(p, c, t);
    EnterLookup(p, q, c, t);
    EnterTips(p, q, t);
    EnterViews(p, q, c, t);
  }

  lemma {:induction false} EnterGoodGraph(p: Pool, c: Chain, t: Tx)
    requires LookupOk(p, c) && ViewsOk(p) && FrontierOk(p) && ParentsOk(p, c) && New(p, t) && t.hash !in c.txs
    requires Judge(Queued(p, t), c, t) == IsGood
    ensures FrontierOk(EnterGood(p, c, t)) && ParentsOk(EnterGood(p, c, t), c)
  {
    var q := EnterGood(p, c, t);
    EnterShape(p, c, t);
    GoodParents(p, c, t);
    EnterFrontier(p, q, c, t);
    EnterParents(p, q, c, t);
  }

  lemma {:induction false} EnterGoodFlows(p: Pool, c: Chain, t: Tx)
    requires ViewsOk(p) && FlowsOk(p, c) && FreshOk(p, c) && New(p, t) && Judge(Queued(p, t), c, t) == IsGood
    ensures FlowsOk(EnterGood(p, c, t), c) && FreshOk(EnterGood(p, c, t), c)
  {
    var q := EnterGood(p, c, t);
    EnterShape(p, c, t);
    EnterFlows(p, q, c, t);
    EnterFresh(p, q, c, t);
  }

  // ---------------------------------------------------------------------------
  // Entering a bad transaction
  // ---------------------------------------------------------------------------

  lemma {:induction false} BadGoods(p: Pool, t: Tx, h: Hash)
    requires New(p, t)
    ensures Good(EnterBad(p, t), h) <==> Good(p, h)
    ensures Good(p, h) ==> EnterBad(p, t).lookup[h] == p.lookup[h]
  {
  }

  lemma {:induction false} BadSpent(p: Pool, t: Tx, a: Address)
    requires New(p, t)
    ensures Spent(EnterBad(p, t), a) == Spent(p, a)
  {
    var q := EnterBad(p, t);
    forall h ensures Spend(q, h, a) == Spend(p, h, a) { BadGoods(p, t, h); }
    assert q.lookup.Keys == p.lookup.Keys + {t.hash};
    SumAdd(p.lookup.Keys, h => Spend(q, h, a), t.hash);
    SumSame(p.lookup.Keys, h => Spend(p, h, a), h => Spend(q, h, a));
  }

  lemma {:induction false} BadFlows(p: Pool, c: Chain, t: Tx)
    requires FlowsOk(p, c) && FreshOk(p, c) && New(p, t)
    ensures FlowsOk(EnterBad(p, t), c) && FreshOk(EnterBad(p, t), c)
  {
    var q := EnterBad(p, t);
    forall h ensures Good(q, h) <==> Good(p, h) { BadGoods(p, t, h); }
    forall a | a in q.flows ensures FlowOk(q, c, a, q.flows[a]) {
      assert FlowOk(p, c, a, p.flows[a]);
      BadSpent(p, t, a);
      forall n | n in q.flows[a].list ensures ListedOk(q, c, a, n, q.flows[a].list[n]) {
        assert ListedOk(p, c, a, n, p.flows[a].list[n]);
      }
    }
    forall h | Good(q, h) ensures InFlow(q, q.lookup[h].tx) { assert InFlow(p, p.lookup[h].tx); }
  }

  lemma {:induction false} BadFrontier(p: Pool, c: Chain, t: Tx)
    requires FrontierOk(p) && ParentsOk(p, c) && New(p, t)
    ensures FrontierOk(EnterBad(p, t)) && ParentsOk(EnterBad(p, t), c)
  {
    var q := EnterBad(p, t);
    forall h ensures Good(q, h) <==> Good(p, h) { BadGoods(p, t, h); }
    forall h ensures Named(q, h) <==> Named(p, h) {
      if Named(p, h) {
        var k :| Good(p, k) && h in p.lookup[k].tx.parents;
        assert Good(q, k);
      }
      if Named(q, h) {
        var k :| Good(q, k) && h in q.lookup[k].tx.parents;
        assert Good(p, k);
      }
    }
  }

  lemma {:induction false} BadListed(p: Pool, c: Chain, t: Tx)
    requires OrderOk(p) && LookupOk(p, c) && New(p, t)
    ensures OrderOk(EnterBad(p, t)) && LookupOk(EnterBad(p, t), c)
  {
  }

  lemma {:induction false} BadArrival(p: Pool, t: Tx)
    requires ArrivalOk(p) && New(p, t)
    ensures ArrivalOk(EnterBad(p, t))
  {
    var q := EnterBad(p, t);
    forall g, h | Good(q, g) && Good(q, h) && g in q.lookup[h].tx.parents ensures Before(q.order, g, h) {
      BadGoods(p, t, g);
      BadGoods(p, t, h);
      BeforeAppend(p.order, t.hash, g, h);
      assert Before(p.order, g, h);
    }
  }

  lemma {:induction false} BadViews(p: Pool, t: Tx)
    requires ViewsOk(p) && New(p, t)
    ensures ViewsOk(EnterBad(p, t))
  {
    var q := EnterBad(p, t);
    assert TipsOk(q) && PendingOk(q);
    forall h ensures h in q.bad <==> h in q.lookup && q.lookup[h].status == Bad { assert h in p.bad <==> h in p.lookup && p.lookup[h].status == Bad; }
  }

  // ---------------------------------------------------------------------------
  // Every transaction event
  // ---------------------------------------------------------------------------

  /** Whatever a new transaction is judged to be, entering it keeps the invariant. */
  lemma {:induction false} EnterInv(p: Pool, c: Chain, t: Tx)
    requires Inv(p, c) && Indexed(c) && New(p, t) && (t.hash in c.txs ==> c.txs[t.hash] == t)
    ensures Inv(Enter(p, c, t), c)
  {
    match Judge(Queued(p, t), c, t)
    case IsFatal =>
    case IsBad =>
      BadListed(p, c, t);
      BadViews(p, t);
      BadFrontier(p, c, t);
      BadFlows(p, c, t);
      BadArrival(p, t);
    case IsGood =>
      assert t.hash !in c.txs;
      EnterGoodViews(p, c, t);
      EnterShape(p, c, t);
      EnterArrives(p, c, t);
      EnterArrival(p, EnterGood(p, c, t), c, t);
      EnterGoodGraph(p, c, t);
      EnterGoodFlows(p, c, t);
  }

  /** Entering the normal transactions of a list, one after the other. */
  function EnterAll(p: Pool, c: Chain, ts: seq<Tx>): Pool {
    if ts == [] then p
    else if ts[|ts| - 1].Normal? then Enter(EnterAll(p, c, ts[..|ts| - 1]), c, ts[|ts| - 1])
    else EnterAll(p, c, ts[..|ts| - 1])
  }

  lemma {:induction false} EmptyInv(c: Chain)
    ensures Inv(EMPTY, c)
  {
  }
}
