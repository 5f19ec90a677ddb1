/**
 The dial scheduler of p2p/dial.go, with the peers that Server.run (p2p/server.go) passes to it.
 It hands out dial tasks within a budget of dynamic dials and keeps away from nodes it dialed
 recently.  The dial history is a priority queue, modelled as a list whose least entry is taken.
 */
module Dialer {

  type Id = nat

  /** Milliseconds. */
  type Time = int

  /** `dialHistoryExpiration`: 30 seconds. */
  const EXPIRATION: Time := 30000

  /** `fallbackInterval`: 20 seconds. */
  const FALLBACK: Time := 20000

  datatype Node = Node(id: Id, ip: nat)

  datatype Flag = Dyn | Static

  datatype Past = Past(id: Id, exp: Time)

  datatype Task = Dial(flag: Flag, dest: Node) | Discover | WaitExpire(duration: Time)

  datatype Verdict = Fine | AlreadyDialing | AlreadyConnected | IsSelf | NotWhitelisted | RecentlyDialed

  // ---------------------------------------------------------------------------
  // The dial history
  // ---------------------------------------------------------------------------

  predicate InHistory(hist: seq<Past>, id: Id) {
    exists i :: 0 <= i < |hist| && hist[i].id == id
  }

  ghost predicate OneEach(hist: seq<Past>) {
    forall i, j :: 0 <= i < j < |hist| ==> hist[i].id != hist[j].id
  }

  method Contains(hist: seq<Past>, id: Id) returns (b: bool)
    ensures b <==> InHistory(hist, id)
  {
    var i := 0;
    while i < |hist|
      invariant 0 <= i <= |hist| && forall j :: 0 <= j < i ==> hist[j].id != id
    {
      if hist[i].id == id { return true; }
      i := i + 1;
    }
    return false;
  }

  /** The position of an entry that expires first. */
  method Min(hist: seq<Past>) returns (k: nat)
    requires hist != []
    ensures k < |hist| && forall j :: 0 <= j < |hist| ==> hist[k].exp <= hist[j].exp
  {
    k := 0;
    var i := 1;
    while i < |hist|
      invariant 1 <= i <= |hist| && k < i && forall j :: 0 <= j < i ==> hist[k].exp <= hist[j].exp
    {
      if hist[i].exp < hist[k].exp { k := i; }
      i := i + 1;
    }
  }

  /** The entries that have not expired. */
  function Fresh(hist: seq<Past>, now: Time): seq<Past> {
    if hist == [] then []
    else Fresh(hist[..|hist| - 1], now) + if hist[|hist| - 1].exp < now then [] else [hist[|hist| - 1]]
  }

  lemma {:induction false} FreshAll(hist: seq<Past>, now: Time)
    requires forall i :: 0 <= i < |hist| ==> hist[i].exp >= now
    ensures Fresh(hist, now) == hist
  {
    if hist != [] {
      var front, last := hist[..|hist| - 1], hist[|hist| - 1];
      assert hist == front + [last] && hist[|hist| - 1].exp >= now;
      FreshAll(front, now);
    }
  }

  /** An expired entry can be taken out first. */
  lemma {:induction false} FreshCut(hist: seq<Past>, now: Time, k: nat)
    requires k < |hist| && hist[k].exp < now
    ensures Fresh(hist[..k] + hist[k + 1..], now) == Fresh(hist, now)
    decreases |hist|
  {
    var front, last := hist[..|hist| - 1], hist[|hist| - 1];
    if k == |hist| - 1 {
      assert hist[..k] + hist[k + 1..] == front;
    } else {
      FreshCut(front, now, k);
      var cut := front[..k] + front[k + 1..];
      assert hist[..k] + hist[k + 1..] == cut + [last];
      assert (cut + [last])[..|cut|] == cut;
    }
  }

  /** Takes the least entry out while it has expired: exactly the expired entries go. */
  method Expire(hist: seq<Past>, now: Time) returns (r: seq<Past>)
    ensures r == Fresh(hist, now)
  {
    r := hist;
    while r != []
      invariant Fresh(r, now) == Fresh(hist, now)
      decreases |r|
    {
      var k := Min(r);
      if r[k].exp >= now {
        FreshAll(r, now);
        return;
      }
      FreshCut(r, now, k);
      r := r[..k] + r[k + 1..];
    }
  }

  lemma {:induction false} FreshIn(hist: seq<Past>, now: Time, p: Past)
    ensures p in Fresh(hist, now) <==> p in hist && p.exp >= now
    decreases |hist|
  {
    if hist != [] {
      FreshIn(hist[..|hist| - 1], now, p);
      assert hist == hist[..|hist| - 1] + [hist[|hist| - 1]];
    }
  }

  lemma {:induction false} FreshOneEach(hist: seq<Past>, now: Time)
    requires OneEach(hist)
    ensures OneEach(Fresh(hist, now))
    decreases |hist|
  {
    if hist != [] {
      var front, last := hist[..|hist| - 1], hist[|hist| - 1];
      FreshOneEach(front, now);
      forall i | 0 <= i < |Fresh(front, now)| ensures Fresh(front, now)[i].id != last.id {
        FreshIn(front, now, Fresh(front, now)[i]);
        assert Fresh(front, now)[i] in front;
        var j :| 0 <= j < |front| && front[j] == Fresh(front, now)[i];
        assert hist[j] == front[j];
      }
    }
  }

  /** Takes the entry of a node out. */
  method Forget(hist: seq<Past>, id: Id) returns (r: seq<Past>)
    requires OneEach(hist)
    ensures OneEach(r) && forall p :: p in r <==> p in hist && p.id != id
  {
    var i := 0;
    while i < |hist| && hist[i].id != id
      invariant 0 <= i <= |hist| && forall j :: 0 <= j < i ==> hist[j].id != id
    {
      i := i + 1;
    }
    if i == |hist| { return hist; }
    r := hist[..i] + hist[i + 1..];
    assert hist == hist[..i] + [hist[i]] + hist[i + 1..];
  }

  // ---------------------------------------------------------------------------
  // The invariant
  // ---------------------------------------------------------------------------

  function DynDialing(dialing: map<Id, Flag>): set<Id> {
    set id | id in dialing && dialing[id] == Dyn
  }

  /** Peers are flagged by whether they were dialed dynamically. */
  function DynPeers(peers: map<Id, bool>): set<Id> {
    set id | id in peers && peers[id]
  }

  /** The nodes that are dynamically dialing or dynamically connected are within the budget. */
  ghost predicate Budget(dialing: map<Id, Flag>, peers: map<Id, bool>, max: nat) {
    |DynDialing(dialing) + DynPeers(peers)| <= max
  }

  /**
   `done` holds the last finished dial of each node.  The history has one entry for a node that
   finished a dial, until the entry expires, and none for a node being dialed.
   */
  ghost predicate HistoryOk(hist: seq<Past>, dialing: map<Id, Flag>, done: map<Id, Time>, clock: Time) {
    && OneEach(hist)
    && (forall p :: p in hist ==> p.id !in dialing && p.id in done && p.exp == done[p.id] + EXPIRATION)
    && (forall id :: id in done ==> InHistory(hist, id) || done[id] + EXPIRATION < clock)
  }

  /** The entry that a finished dial leaves. */
  lemma {:induction false} Finished(hist: seq<Past>, dialing: map<Id, Flag>, done: map<Id, Time>, clock: Time, id: Id, now: Time)
    requires HistoryOk(hist, dialing, done, clock) && id in dialing
    ensures HistoryOk(hist + [Past(id, now + EXPIRATION)], dialing - {id}, done[id := now], clock)
  {
    var h := hist + [Past(id, now + EXPIRATION)];
    forall i, j | 0 <= i < j < |h| ensures h[i].id != h[j].id {
      if j == |hist| { assert hist[i] in hist; }
    }
    forall x | x in done[id := now] ensures InHistory(h, x) || done[id := now][x] + EXPIRATION < clock {
      if x == id {
        assert h[|hist|].id == id;
      } else if InHistory(hist, x) {
        var i :| 0 <= i < |hist| && hist[i].id == x;
        assert h[i].id == x;
      }
    }
  }

  /** Expired entries go as the clock moves on. */
  lemma {:induction false} Expired(hist: seq<Past>, dialing: map<Id, Flag>, done: map<Id, Time>, clock: Time, now: Time)
    requires HistoryOk(hist, dialing, done, clock) && clock <= now
    ensures HistoryOk(Fresh(hist, now), dialing, done, now)
  {
    FreshOneEach(hist, now);
    forall p | p in Fresh(hist, now) ensures p in hist { FreshIn(hist, now, p); }
    forall id | id in done ensures InHistory(Fresh(hist, now), id) || done[id] + EXPIRATION < now {
      if InHistory(hist, id) {
        var i :| 0 <= i < |hist| && hist[i].id == id;
        assert hist[i] in hist;
        FreshIn(hist, now, hist[i]);
        if hist[i].exp >= now {
          var j :| 0 <= j < |Fresh(hist, now)| && Fresh(hist, now)[j] == hist[i];
          assert Fresh(hist, now)[j].id == id;
        }
      }
    }
  }

  lemma {:induction false} Forgotten(hist: seq<Past>, r: seq<Past>, dialing: map<Id, Flag>, done: map<Id, Time>, clock: Time, id: Id)
    requires HistoryOk(hist, dialing, done, clock) && OneEach(r) && forall p :: p in r <==> p in hist && p.id != id
    ensures HistoryOk(r, dialing, done - {id}, clock)
  {
    forall x | x in done - {id} ensures InHistory(r, x) || done[x] + EXPIRATION < clock {
      if InHistory(hist, x) {
        var i :| 0 <= i < |hist| && hist[i].id == x;
        assert hist[i] in hist && hist[i] in r;
        var j :| 0 <= j < |r| && r[j] == hist[i];
        assert r[j].id == x;
      }
    }
  }

  // ---------------------------------------------------------------------------
  // The tasks of one round
  // ---------------------------------------------------------------------------

  ghost predicate Dials(ts: seq<Task>, id: Id) {
    exists k :: 0 <= k < |ts| && ts[k].Dial? && ts[k].dest.id == id
  }

  /** The dial tasks are to different nodes, none of which was being dialed, and are exactly what is dialed in addition. */
  ghost predicate Round(before: map<Id, Flag>, dialing: map<Id, Flag>, ts: seq<Task>) {
    && (forall id {:trigger Dials(ts, id)} :: id in dialing <==> id in before || Dials(ts, id))
    && (forall id {:trigger Dials(ts, id)} :: id in before ==> id in dialing && dialing[id] == before[id] && !Dials(ts, id))
    && (forall k {:trigger DialedAs(dialing, ts, k)} :: DialedAs(dialing, ts, k))
    && (forall j, k {:trigger Differ(ts, j, k)} :: Differ(ts, j, k))
  }

  ghost predicate DialedAs(dialing: map<Id, Flag>, ts: seq<Task>, k: int) {
    0 <= k < |ts| && ts[k].Dial? ==> ts[k].dest.id in dialing && dialing[ts[k].dest.id] == ts[k].flag
  }

  ghost predicate Differ(ts: seq<Task>, j: int, k: int) {
    0 <= j < k < |ts| && ts[j].Dial? && ts[k].Dial? ==> ts[j].dest.id != ts[k].dest.id
  }

  lemma {:induction false} RoundNone(dialing: map<Id, Flag>)
    ensures Round(dialing, dialing, [])
  {
    forall k ensures DialedAs(dialing, [], k) {}
    forall j, k ensures Differ([], j, k) {}
  }

  lemma {:induction false} DialsMore(ts: seq<Task>, t: Task, id: Id)
    ensures Dials(ts + [t], id) <==> Dials(ts, id) || (t.Dial? && t.dest.id == id)
  {
    var ts' := ts + [t];
    if Dials(ts, id) {
      var k :| 0 <= k < |ts| && ts[k].Dial? && ts[k].dest.id == id;
      assert ts'[k] == ts[k];
    }
    if Dials(ts', id) {
      var k :| 0 <= k < |ts'| && ts'[k].Dial? && ts'[k].dest.id == id;
      if k < |ts| { assert ts[k] == ts'[k]; }
    }
    assert ts'[|ts|] == t;
  }

  lemma {:induction false} RoundDial(before: map<Id, Flag>, dialing: map<Id, Flag>, ts: seq<Task>, flag: Flag, n: Node)
    requires Round(before, dialing, ts) && n.id !in dialing
    ensures Round(before, dialing[n.id := flag], ts + [Dial(flag, n)])
  {
    var dialing', ts' := dialing[n.id := flag], ts + [Dial(flag, n)];
    forall id
      ensures id in dialing' <==> id in before || Dials(ts', id)
      ensures id in before ==> id in dialing' && dialing'[id] == before[id] && !Dials(ts', id)
    {
      DialsMore(ts, Dial(flag, n), id);
      assert Dials(ts, id) || !Dials(ts, id);
    }
    forall k ensures DialedAs(dialing', ts', k) { assert DialedAs(dialing, ts, k); }
    forall j, k ensures Differ(ts', j, k) {
      assert Differ(ts, j, k);
      if 0 <= j < |ts| && ts[j].Dial? { assert Dials(ts, ts[j].dest.id); }
    }
  }

  lemma {:induction false} RoundOther(before: map<Id, Flag>, dialing: map<Id, Flag>, ts: seq<Task>, t: Task)
    requires Round(before, dialing, ts) && !t.Dial?
    ensures Round(before, dialing, ts + [t])
  {
    var ts' := ts + [t];
    forall id
      ensures id in dialing <==> id in before || Dials(ts', id)
      ensures id in before ==> id in dialing && dialing[id] == before[id] && !Dials(ts', id)
    {
      DialsMore(ts, t, id);
      assert Dials(ts, id) || !Dials(ts, id);
    }
    forall k ensures DialedAs(dialing, ts', k) { assert DialedAs(dialing, ts, k); }
    forall j, k ensures Differ(ts', j, k) { assert Differ(ts, j, k); }
  }

  /** A node without an entry in the history was not dialed in the last 30 seconds, and may be dialed. */
  lemma {:induction false} HistoryDial(hist: seq<Past>, dialing: map<Id, Flag>, done: map<Id, Time>, clock: Time, id: Id, flag: Flag)
    requires HistoryOk(hist, dialing, done, clock) && !InHistory(hist, id)
    ensures HistoryOk(hist, dialing[id := flag], done, clock) && (id in done ==> done[id] + EXPIRATION < clock)
  {
    forall p | p in hist ensures p.id != id {
      var i :| 0 <= i < |hist| && hist[i] == p;
    }
  }

  /** One more dynamic dial fits as long as the count leaves room for it. */
  lemma {:induction false} DynDial(dialing: map<Id, Flag>, peers: map<Id, bool>, max: nat, id: Id)
    requires |DynPeers(peers)| + |DynDialing(dialing)| < max && id !in dialing
    ensures |DynDialing(dialing[id := Dyn])| == |DynDialing(dialing)| + 1 && Budget(dialing[id := Dyn], peers, max)
  {
    assert DynDialing(dialing[id := Dyn]) == DynDialing(dialing) + {id};
    UnionBound(DynDialing(dialing[id := Dyn]), DynPeers(peers));
  }

  lemma {:induction false} UnionBound(s: set<Id>, t: set<Id>)
    ensures |s + t| <= |s| + |t|
  {
    assert s + t == s + (t - s);
    Subset(t - s, t);
  }

  lemma {:induction false} Subset(s: set<Id>, t: set<Id>)
    requires s <= t
    ensures |s| <= |t|
  {
    assert t == s + (t - s);
    assert |t| == |s| + |t - s|;
  }

  lemma {:induction false} StaticDial(dialing: map<Id, Flag>, peers: map<Id, bool>, max: nat, id: Id)
    requires id !in dialing && Budget(dialing, peers, max)
    ensures DynDialing(dialing[id := Static]) == DynDialing(dialing) && Budget(dialing[id := Static], peers, max)
  {
  }

  function PeersAmong(peers: map<Id, bool>, seen: set<Id>): set<Id> {
    set id | id in seen && id in peers && peers[id]
  }

  lemma {:induction false} PeersStep(peers: map<Id, bool>, seen: set<Id>, id: Id)
    requires id in peers && id !in seen
    ensures |PeersAmong(peers, seen + {id})| == |PeersAmong(peers, seen)| + if peers[id] then 1 else 0
  {
    assert PeersAmong(peers, seen + {id}) == PeersAmong(peers, seen) + if peers[id] then {id} else {};
  }

  method CountPeers(peers: map<Id, bool>) returns (count: nat)
    ensures count == |DynPeers(peers)|
  {
    count := 0;
    var rest := peers.Keys;
    ghost var seen: set<Id> := {};
    while rest != {}
      invariant rest !! seen && rest + seen == peers.Keys && count == |PeersAmong(peers, seen)|
      decreases |rest|
    {
      var id :| id in rest;
      PeersStep(peers, seen, id);
      if peers[id] { count := count + 1; }
      rest, seen := rest - {id}, seen + {id};
    }
    assert seen == peers.Keys && PeersAmong(peers, seen) == DynPeers(peers);
  }

  function DialingAmong(dialing: map<Id, Flag>, seen: set<Id>): set<Id> {
    set id | id in seen && id in dialing && dialing[id] == Dyn
  }

  lemma {:induction false} DialingStep(dialing: map<Id, Flag>, seen: set<Id>, id: Id)
    requires id in dialing && id !in seen
    ensures |DialingAmong(dialing, seen + {id})| == |DialingAmong(dialing, seen)| + if dialing[id] == Dyn then 1 else 0
  {
    assert DialingAmong(dialing, seen + {id}) == DialingAmong(dialing, seen) + if dialing[id] == Dyn then {id} else {};
  }

  method CountDialing(dialing: map<Id, Flag>) returns (count: nat)
    ensures count == |DynDialing(dialing)|
  {
    count := 0;
    var rest := dialing.Keys;
    ghost var seen: set<Id> := {};
    while rest != {}
      invariant rest !! seen && rest + seen == dialing.Keys && count == |DialingAmong(dialing, seen)|
      decreases |rest|
    {
      var id :| id in rest;
      DialingStep(dialing, seen, id);
      if dialing[id] == Dyn { count := count + 1; }
      rest, seen := rest - {id}, seen + {id};
    }
    assert seen == dialing.Keys && DialingAmong(dialing, seen) == DynDialing(dialing);
  }

  /** A peer that was dialing dynamically counts once. */
  lemma {:induction false} PeerJoins(dialing: map<Id, Flag>, peers: map<Id, bool>, max: nat, id: Id, dyn: bool)
    requires Budget(dialing, peers, max) && id !in peers && (dyn ==> id in dialing && dialing[id] == Dyn)
    ensures Budget(dialing, peers[id := dyn], max)
  {
    assert DynDialing(dialing) + DynPeers(peers[id := dyn]) == DynDialing(dialing) + DynPeers(peers);
  }

  /** The nodes by id; later ones win. */
  function ById(nodes: seq<Node>): map<Id, Node> {
    if nodes == [] then map[] else ById(nodes[..|nodes| - 1])[nodes[|nodes| - 1].id := nodes[|nodes| - 1]]
  }

  /** Dial tasks only: static ones to the given static nodes, dynamic ones to the given candidates. */
  ghost predicate OnlyFrom(ts: seq<Task>, fixed: set<Node>, dyn: seq<Node>) {
    forall k :: 0 <= k < |ts| ==> ts[k].Dial? && if ts[k].flag == Static then ts[k].dest in fixed else ts[k].dest in dyn
  }

  /** The tasks are dial tasks, then a lookup if one was started, or else a timer for the entry that expires first. */
  ghost predicate Filled(ts: seq<Task>, dials: seq<Task>, lookup: bool, idle: bool, hist: seq<Past>, now: Time) {
    if lookup then ts == dials + [Discover]
    else if idle && dials == [] && hist != [] then
      exists k :: 0 <= k < |hist| && ts == [WaitExpire(hist[k].exp - now)] && forall j :: 0 <= j < |hist| ==> hist[k].exp <= hist[j].exp
    else ts == dials
  }

  /** A mention of a task list, which opens what is said about it below. */
  predicate Mark(ts: seq<Task>, n: int) {
    true
  }

  class DialState {
    var dialing: map<Id, Flag>
    var statics: map<Id, Node>
    var hist: seq<Past>
    var lookupBuf: seq<Node>
    var bootnodes: seq<Node>
    var lookupRunning: bool
    var started: bool
    var start: Time
    /** The connected nodes, kept by the server loop. */
    var peers: map<Id, bool>
    const max: nat
    const hasTable: bool
    const self: Id
    const allowed: Node -> bool
    /** When each node's last dial finished, unless its static entry was removed since. */
    ghost var done: map<Id, Time>
    /** The latest time the scheduler was called with. */
    ghost var clock: Time

    ghost predicate Valid()
      reads this`dialing, this`peers, this`hist, this`done, this`clock, this`statics
    {
      && Budget(dialing, peers, max) && HistoryOk(hist, dialing, done, clock)
      && forall id :: id in statics ==> statics[id].id == id
    }

    /** Nothing dialed or remembered yet; of static nodes with one id the last counts. */
    constructor (fixed: seq<Node>, boot: seq<Node>, max: nat, hasTable: bool, self: Id, allowed: Node -> bool)
      ensures Valid() && dialing == map[] && peers == map[] && this.max == max && bootnodes == boot && done == map[]
      ensures statics == ById(fixed)
    {
      dialing, statics, hist, lookupBuf, bootnodes := map[], map[], [], [], boot;
      lookupRunning, started, start, peers := false, false, 0, map[];
      this.max, this.hasTable, this.self, this.allowed := max, hasTable, self, allowed;
      done, clock := map[], 0;
      new;
      var i := 0;
      while i < |fixed|
        invariant 0 <= i <= |fixed| && Valid() && statics == ById(fixed[..i])
        invariant dialing == map[] && peers == map[] && bootnodes == boot && done == map[]
      {
        assert fixed[..i + 1][..i] == fixed[..i];
        AddStatic(fixed[i]);
        i := i + 1;
      }
      assert fixed[..i] == fixed;
    }

    // -------------------------------------------------------------------------
    // Checks
    // -------------------------------------------------------------------------

    function Check(n: Node): Verdict
      reads this`dialing, this`peers, this`hist
    {
      if n.id in dialing then AlreadyDialing
      else if n.id in peers then AlreadyConnected
      else if hasTable && n.id == self then IsSelf
      else if !allowed(n) then NotWhitelisted
      else if InHistory(hist, n.id) then RecentlyDialed
      else Fine
    }

    method CheckDial(n: Node) returns (v: Verdict)
      ensures v == Check(n)
    {
      if n.id in dialing { return AlreadyDialing; }
      if n.id in peers { return AlreadyConnected; }
      if hasTable && n.id == self { return IsSelf; }
      if !allowed(n) { return NotWhitelisted; }
      var recent := Contains(hist, n.id);
      if recent { return RecentlyDialed; }
      return Fine;
    }

    /** The node is not connected, not this node, not excluded, and was not dialed in the last 30 seconds. */
    ghost predicate MayDial(n: Node)
      reads this`peers, this`done, this`clock
    {
      && n.id !in peers && !(hasTable && n.id == self) && allowed(n)
      && (n.id in done ==> done[n.id] + EXPIRATION < clock)
    }

    ghost predicate AllMayDial(ts: seq<Task>)
      reads this`peers, this`done, this`clock
    {
      forall k :: 0 <= k < |ts| && ts[k].Dial? ==> MayDial(ts[k].dest)
    }

    /** Where a round of tasks stands: `need` dynamic dials are left. */
    ghost predicate InRound(before: map<Id, Flag>, ts: seq<Task>, need: int)
      reads this`dialing, this`peers, this`hist, this`done, this`clock, this`statics
    {
      && Valid() && Round(before, dialing, ts) && AllMayDial(ts)
      && need == max - |DynPeers(peers)| - |DynDialing(dialing)|
    }

    /** `InRound`, opened only where the tasks are looked at. */
    ghost predicate Standing(before: map<Id, Flag>, ts: seq<Task>, need: int)
      reads this`dialing, this`peers, this`hist, this`done, this`clock, this`statics
    {
      forall n {:trigger Mark(ts, n)} :: Mark(ts, n) ==> InRound(before, ts, need)
    }

    lemma {:induction false} OpenStanding(before: map<Id, Flag>, ts: seq<Task>, need: int)
      requires Standing(before, ts, need)
      ensures InRound(before, ts, need)
    {
      assert Mark(ts, 0);
    }

    /** Dials a node if nothing speaks against it. */
    method AddDial(flag: Flag, n: Node, ts: seq<Task>, ghost before: map<Id, Flag>, need: int) returns (ok: bool, ts': seq<Task>, need': int)
      requires Standing(before, ts, need) && (flag == Dyn ==> need > 0)
      modifies this`dialing
      ensures Standing(before, ts', need')
      ensures ok <==> old(Check(n)) == Fine
      ensures dialing == if ok then old(dialing)[n.id := flag] else old(dialing)
      ensures ts' == (if ok then ts + [Dial(flag, n)] else ts) && need' == if ok && flag == Dyn then need - 1 else need
    {
      var v := CheckDial(n);
      if v != Fine { return false, ts, need; }
      OpenStanding(before, ts, need);
      RoundDial(before, dialing, ts, flag, n);
      if flag == Dyn { DynDial(dialing, peers, max, n.id); } else { StaticDial(dialing, peers, max, n.id); }
      HistoryDial(hist, dialing, done, clock, n.id, flag);
      dialing := dialing[n.id := flag];
      ts' := ts + [Dial(flag, n)];
      need' := if flag == Dyn then need - 1 else need;
      ok := true;
    }

    // -------------------------------------------------------------------------
    // One round
    // -------------------------------------------------------------------------

    /** How many dynamic dials the budget leaves, counting dialing and connected nodes. */
    method Needed() returns (need: int)
      ensures need == max - |DynPeers(peers)| - |DynDialing(dialing)|
    {
      var connected := CountPeers(peers);
      var dials := CountDialing(dialing);
      need := max - connected - dials;
    }

    /** The node is taken care of: being dialed, connected, or dialed not long ago. */
    predicate Tended(id: Id)
      reads this`dialing, this`peers, this`hist
    {
      id in dialing || id in peers || InHistory(hist, id)
    }

    ghost predicate AllTended()
      reads this`dialing, this`peers, this`hist, this`statics
    {
      forall id :: id in statics ==> Tended(id)
    }

    /** This node itself and excluded nodes are never dialed. */
    predicate Hopeless(n: Node) {
      (hasTable && n.id == self) || !allowed(n)
    }

    /** Static nodes that are not connected; hopeless ones are removed. */
    method DialStatics(ghost before: map<Id, Flag>, need: int) returns (ts: seq<Task>)
      requires Standing(before, [], need)
      modifies this`dialing, this`statics
      ensures Standing(before, ts, need) && AllTended() && OnlyFrom(ts, old(statics).Values, [])
      ensures Weeded(old(statics), statics)
    {
      ts := [];
      var rest := statics.Keys;
      while rest != {}
        invariant rest <= statics.Keys && Standing(before, ts, need) && OnlyFrom(ts, old(statics).Values, [])
        invariant (forall id :: id in statics && id !in rest ==> Tended(id)) && Weeded(old(statics), statics)
        decreases |rest|
      {
        var id :| id in rest;
        rest := rest - {id};
        ts := DialStatic(id, ts, before, need);
      }
    }

    method DialStatic(id: Id, ts0: seq<Task>, ghost before: map<Id, Flag>, need: int) returns (ts: seq<Task>)
      requires Standing(before, ts0, need) && id in statics
      modifies this`dialing, this`statics
      ensures Standing(before, ts, need) && old(dialing).Keys <= dialing.Keys && (ts == ts0 || ts == ts0 + [Dial(Static, old(statics)[id])])
      ensures if id in statics then statics == old(statics) && Tended(id) else statics == old(statics) - {id} && Hopeless(old(statics)[id])
    {
      ts := ts0;
      OpenStanding(before, ts, need);
      var dest := statics[id];
      var v := CheckDial(dest);
      if v == NotWhitelisted || v == IsSelf {
        statics := statics - {id};
      } else if v == Fine {
        var ok, need';
        ok, ts, need' := AddDial(Static, dest, ts, before, need);
      }
    }

    /** Only hopeless static nodes are removed. */
    ghost predicate Weeded(was: map<Id, Node>, now: map<Id, Node>) {
      && (forall id :: id in now ==> id in was && now[id] == was[id])
      && forall id :: id in was && id !in now ==> Hopeless(was[id])
    }

    /** The first bootnode, which goes to the end of the list, when there are no peers for a while. */
    method DialBootnode(now: Time, ts0: seq<Task>, ghost before: map<Id, Flag>, need0: int, ghost fixed: set<Node>) returns (ts: seq<Task>, need: int)
      requires Standing(before, ts0, need0) && OnlyFrom(ts0, fixed, [])
      modifies this`dialing, this`bootnodes
      ensures Standing(before, ts, need) && need0 - 1 <= need <= need0 && old(dialing).Keys <= dialing.Keys
      ensures OnlyFrom(ts, fixed, old(bootnodes)[..Take(old(bootnodes), now, need0)])
      ensures Fallback(old(bootnodes), now, need0) ==> Tended(old(bootnodes)[0].id) || Hopeless(old(bootnodes)[0])
      ensures if Fallback(old(bootnodes), now, need0)
              then bootnodes == old(bootnodes)[1..] + [old(bootnodes)[0]] && (need < need0 <==> old(Check(bootnodes[0])) == Fine)
              else bootnodes == old(bootnodes) && dialing == old(dialing) && need == need0
    {
      ts, need := ts0, need0;
      if |peers| == 0 && |bootnodes| > 0 && need > 0 && now - start > FALLBACK {
        var bootnode := bootnodes[0];
        bootnodes := bootnodes[1..] + [bootnode];
        var ok;
        ok, ts, need := AddDial(Dyn, bootnode, ts, before, need);
      }
    }

    /** Random nodes for half of the dials needed. */
    method DialRandom(random: seq<Node>, ts0: seq<Task>, ghost before: map<Id, Flag>, need0: int, ghost fixed: set<Node>, ghost dyn: seq<Node>) returns (ts: seq<Task>, need: int)
      requires Standing(before, ts0, need0) && OnlyFrom(ts0, fixed, dyn)
      modifies this`dialing
      ensures Standing(before, ts, need) && need0 - (if need0 > 0 then need0 / 2 else 0) <= need <= need0 && old(dialing).Keys <= dialing.Keys
      ensures OnlyFrom(ts, fixed, dyn + random)
      ensures forall i :: 0 <= i < |random| && need0 > 0 && i < need0 / 2 ==> Tended(random[i].id) || Hopeless(random[i])
    {
      ts, need := ts0, need0;
      var candidates := if need > 0 then need / 2 else 0;
      var i := 0;
      while i < candidates && i < |random|
        invariant 0 <= i <= candidates && Standing(before, ts, need) && need0 - i <= need <= need0 && OnlyFrom(ts, fixed, dyn + random)
        invariant old(dialing).Keys <= dialing.Keys
        invariant forall j :: 0 <= j < |random| && j < i ==> Tended(random[j].id) || Hopeless(random[j])
      {
        var ok;
        ok, ts, need := AddDial(Dyn, random[i], ts, before, need);
        i := i + 1;
      }
    }

    /** Lookup results, as long as dials are needed; tried ones leave the buffer. */
    method DialLookups(ts0: seq<Task>, ghost before: map<Id, Flag>, need0: int, ghost fixed: set<Node>, ghost dyn: seq<Node>) returns (ts: seq<Task>, need: int, ghost tried: nat)
      requires Standing(before, ts0, need0) && OnlyFrom(ts0, fixed, dyn)
      modifies this`dialing, this`lookupBuf
      ensures Standing(before, ts, need) && old(dialing).Keys <= dialing.Keys && OnlyFrom(ts, fixed, dyn + old(lookupBuf))
      ensures tried <= old(|lookupBuf|) && lookupBuf == old(lookupBuf)[tried..] && (need <= 0 || lookupBuf == [])
      ensures forall i :: 0 <= i < tried ==> Tended(old(lookupBuf)[i].id) || Hopeless(old(lookupBuf)[i])
    {
      ts, need := ts0, need0;
      var i := 0;
      while i < |lookupBuf| && need > 0
        invariant 0 <= i <= |lookupBuf| && lookupBuf == old(lookupBuf) && Standing(before, ts, need) && old(dialing).Keys <= dialing.Keys
        invariant OnlyFrom(ts, fixed, dyn + lookupBuf)
        invariant forall j :: 0 <= j < i ==> Tended(lookupBuf[j].id) || Hopeless(lookupBuf[j])
      {
        var ok;
        ok, ts, need := AddDial(Dyn, lookupBuf[i], ts, before, need);
        i := i + 1;
      }
      lookupBuf := lookupBuf[i..];
      tried := i;
    }

    /** Room in the budget for more dynamic dials. */
    ghost function Room(): int
      reads this`dialing, this`peers
    {
      max - |DynPeers(peers)| - |DynDialing(dialing)|
    }

    /** There are no peers for a while, and room for a dial. */
    ghost predicate Fallback(boot: seq<Node>, now: Time, need: int)
      reads this`peers, this`start
    {
      |peers| == 0 && |boot| > 0 && need > 0 && now - start > FALLBACK
    }

    /** The bootnodes, once the first of them was tried if there are no peers for a while. */
    ghost function Rotated(boot: seq<Node>, now: Time, need: int): seq<Node>
      reads this`peers, this`start
    {
      if Fallback(boot, now, need) then boot[1..] + [boot[0]] else boot
    }

    /** All these nodes are taken care of, but for hopeless ones. */
    ghost predicate SeenTo(nodes: seq<Node>)
      reads this`dialing, this`peers, this`hist
    {
      forall i :: 0 <= i < |nodes| ==> Tended(nodes[i].id) || Hopeless(nodes[i])
    }

    /** How many random nodes are tried at least: half of the dials needed after the bootnode. */
    ghost function Half(boot: seq<Node>, now: Time, need: int, random: seq<Node>): nat
      reads this`peers, this`start
    {
      var n := if Fallback(boot, now, need) then need - 1 else need;
      if n <= 0 then 0 else if n / 2 < |random| then n / 2 else |random|
    }

    /** What a round of dynamic dials does with a bootnode, random nodes and `tried` lookup results. */
    ghost predicate Tried(boot: seq<Node>, buf: seq<Node>, now: Time, random: seq<Node>, need: int, tried: nat)
      reads this`bootnodes, this`lookupBuf, this`dialing, this`peers, this`hist, this`start
    {
      && bootnodes == Rotated(boot, now, need) && (Fallback(boot, now, need) ==> SeenTo(boot[..1]))
      && SeenTo(random[..Half(boot, now, need, random)])
      && tried <= |buf| && lookupBuf == buf[tried..] && SeenTo(buf[..tried])
    }

    /**
     One round: every dial handed out goes to a different node that is not being dialed, not
     connected, not this node, not excluded, and not dialed within the last 30 seconds; and the
     budget of dynamic dials is kept.  No static node is forgotten, no room is left while there are
     lookup results, a lookup is started exactly when there is more room than candidates, and a round
     without tasks is followed by some event.
     */
    method NewTasks(running: nat, now: Time, random: seq<Node>) returns (ts: seq<Task>, ghost dials: seq<Task>, ghost tried: nat)
      requires Valid() && clock <= now
      modifies this`dialing, this`statics, this`hist, this`lookupBuf, this`bootnodes, this`lookupRunning, this`started, this`start, this`clock
      ensures Valid() && clock == now && hist == Fresh(old(hist), now)
      ensures Round(old(dialing), dialing, ts) && AllMayDial(ts)
      ensures Weeded(old(statics), statics) && AllTended()
      ensures Tried(old(bootnodes), old(lookupBuf), now, random, old(Room()), tried)
      ensures Room() > 0 ==> lookupBuf == []
      ensures lookupRunning <==> old(lookupRunning) || |lookupBuf| < Room()
      ensures OnlyFrom(dials, old(statics).Values, old(bootnodes)[..Take(old(bootnodes), now, old(Room()))] + random + old(lookupBuf))
      ensures Filled(ts, dials, lookupRunning && !old(lookupRunning), running == 0, hist, now)
      ensures ts == [] ==> running > 0 || hist == []
    {
      var need := Begin(now);
      ghost var before := dialing;
      OpenRoom(before, [], need);
      ts, need, dials, tried := AllTasks(running, now, random, need);
      OpenStanding(before, ts, need);
    }

    lemma {:induction false} OpenRoom(before: map<Id, Flag>, ts: seq<Task>, need: int)
      requires Standing(before, ts, need)
      ensures need == Room()
    {
      OpenStanding(before, ts, need);
    }

    /** The tasks of a round, once it is known how many dials are needed. */
    method AllTasks(running: nat, now: Time, random: seq<Node>, need0: int) returns (ts: seq<Task>, need: int, ghost dials: seq<Task>, ghost tried: nat)
      requires Standing(dialing, [], need0)
      modifies this`dialing, this`statics, this`lookupBuf, this`bootnodes, this`lookupRunning
      ensures Standing(old(dialing), ts, need)
      ensures Weeded(old(statics), statics) && AllTended()
      ensures Tried(old(bootnodes), old(lookupBuf), now, random, need0, tried) && (need > 0 ==> lookupBuf == [])
      ensures lookupRunning <==> old(lookupRunning) || |lookupBuf| < need
      ensures OnlyFrom(dials, old(statics).Values, old(bootnodes)[..Take(old(bootnodes), now, need0)] + random + old(lookupBuf))
      ensures Filled(ts, dials, lookupRunning && !old(lookupRunning), running == 0, hist, now)
      ensures ts == [] ==> running > 0 || hist == []
    {
      ghost var before := dialing;
      ts := DialStatics(before, need0);
      ts, need, tried := DialDynamic(now, random, ts, before, need0, old(statics).Values);
      dials := ts;
      ts := Fillers(running, now, ts, before, need);
    }

    /** How many bootnodes are tried. */
    ghost function Take(boot: seq<Node>, now: Time, need: int): (n: nat)
      reads this`peers, this`start
      ensures n <= |boot|
    {
      if Fallback(boot, now, need) then 1 else 0
    }

    /** The dynamic dials: a bootnode, random nodes, lookup results. */
    method DialDynamic(now: Time, random: seq<Node>, ts0: seq<Task>, ghost before: map<Id, Flag>, need0: int, ghost fixed: set<Node>)
      returns (ts: seq<Task>, need: int, ghost tried: nat)
      requires Standing(before, ts0, need0) && AllTended() && OnlyFrom(ts0, fixed, [])
      modifies this`dialing, this`bootnodes, this`lookupBuf
      ensures Standing(before, ts, need) && AllTended() && (need <= 0 || lookupBuf == [])
      ensures Tried(old(bootnodes), old(lookupBuf), now, random, need0, tried)
      ensures OnlyFrom(ts, fixed, old(bootnodes)[..Take(old(bootnodes), now, need0)] + random + old(lookupBuf))
    {
      ts, need := DialBootnode(now, ts0, before, need0, fixed);
      ghost var boot := old(bootnodes)[..Take(old(bootnodes), now, need0)];
      ts, need := DialRandom(random, ts, before, need, fixed, boot);
      ts, need, tried := DialLookups(ts, before, need, fixed, boot + random);
    }

    /** Counts what is needed and expires the history. */
    method Begin(now: Time) returns (need: int)
      requires Valid() && clock <= now
      modifies this`hist, this`started, this`start, this`clock
      ensures Standing(dialing, [], need) && clock == now && hist == Fresh(old(hist), now)
      ensures started && start == if old(started) then old(start) else now
    {
      if !started { started, start := true, now; }
      need := Needed();
      Expired(hist, dialing, done, clock, now);
      RoundNone(dialing);
      hist := Expire(hist, now);
      clock := now;
    }

    /** A lookup if more candidates are needed, and a timer if nothing else is going on. */
    method Fillers(running: nat, now: Time, ts0: seq<Task>, ghost before: map<Id, Flag>, need: int) returns (ts: seq<Task>)
      requires Standing(before, ts0, need)
      modifies this`lookupRunning
      ensures Standing(before, ts, need) && (lookupRunning <==> old(lookupRunning) || |lookupBuf| < need)
      ensures Filled(ts, ts0, lookupRunning && !old(lookupRunning), running == 0, hist, now)
      ensures ts == [] <==> ts0 == [] && !(|lookupBuf| < need && !old(lookupRunning)) && (running > 0 || hist == [])
    {
      ts := ts0;
      if |lookupBuf| < need && !lookupRunning {
        lookupRunning := true;
        OneMore(before, ts, need, Discover);
        ts := ts + [Discover];
      }
      if running == 0 && |ts| == 0 && |hist| > 0 {
        var k := Min(hist);
        OneMore(before, ts, need, WaitExpire(hist[k].exp - now));
        ts := ts + [WaitExpire(hist[k].exp - now)];
      }
    }

    /** A task that is no dial changes nothing of the round. */
    lemma {:induction false} OneMore(before: map<Id, Flag>, ts: seq<Task>, need: int, t: Task)
      requires Standing(before, ts, need) && !t.Dial?
      ensures Standing(before, ts + [t], need)
    {
      OpenStanding(before, ts, need);
      RoundOther(before, dialing, ts, t);
    }

    // -------------------------------------------------------------------------
    // Events
    // -------------------------------------------------------------------------

    /** A dial task ends: the node is remembered for 30 seconds. */
    method DialDone(id: Id, now: Time)
      requires Valid() && id in dialing
      modifies this`dialing, this`hist, this`done
      ensures Valid() && dialing == old(dialing) - {id} && done == old(done)[id := now]
    {
      Finished(hist, dialing, done, clock, id, now);
      LessDialing(dialing, peers, max, id);
      hist := hist + [Past(id, now + EXPIRATION)];
      dialing := dialing - {id};
      done := done[id := now];
    }

    method LookupDone(results: seq<Node>)
      requires Valid()
      modifies this`lookupRunning, this`lookupBuf
      ensures Valid() && lookupBuf == old(lookupBuf) + results && !lookupRunning
    {
      lookupRunning := false;
      lookupBuf := lookupBuf + results;
    }

    method AddStatic(n: Node)
      requires Valid()
      modifies this`statics
      ensures Valid() && statics == old(statics)[n.id := n]
    {
      statics := statics[n.id := n];
    }

    /** Removing a static node also forgets its last dial, so that it can be dialed again at once. */
    method RemoveStatic(n: Node)
      requires Valid()
      modifies this`statics, this`hist, this`done
      ensures Valid() && statics == old(statics) - {n.id} && done == old(done) - {n.id} && !InHistory(hist, n.id)
    {
      statics := statics - {n.id};
      var r := Forget(hist, n.id);
      Forgotten(hist, r, dialing, done, clock, n.id);
      forall i | 0 <= i < |r| ensures r[i].id != n.id { assert r[i] in r; }
      hist := r;
      done := done - {n.id};
    }

    /** A peer joins; a dynamically dialed one joins while its dial task runs. */
    method AddPeer(id: Id, dyn: bool)
      requires Valid() && id !in peers && (dyn ==> id in dialing && dialing[id] == Dyn)
      modifies this`peers
      ensures Valid() && peers == old(peers)[id := dyn]
    {
      PeerJoins(dialing, peers, max, id, dyn);
      peers := peers[id := dyn];
    }

    method DropPeer(id: Id)
      requires Valid()
      modifies this`peers
      ensures Valid() && peers == old(peers) - {id}
    {
      Subset(DynDialing(dialing) + DynPeers(peers - {id}), DynDialing(dialing) + DynPeers(peers));
      peers := peers - {id};
    }
  }

  lemma {:induction false} LessDialing(dialing: map<Id, Flag>, peers: map<Id, bool>, max: nat, id: Id)
    requires Budget(dialing, peers, max)
    ensures Budget(dialing - {id}, peers, max)
  {
    Subset(DynDialing(dialing - {id}) + DynPeers(peers), DynDialing(dialing) + DynPeers(peers));
  }
}
