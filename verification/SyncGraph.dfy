/**
 The bookkeeping of the state-sync scheduler (trie/sync.go): pending requests, the requests
 that wait for them, and how many dependencies each request counts.

 `owed` holds the dependencies that are counted but not attached to a pending request: those
 about to be scheduled, and those of a finished request that were not paid back yet.
 */
module SyncGraph {
  import opened Encoding
  import opened Sums

  type Hash = nat

  datatype Payload = Absent | Received(blob: Bytes)

  datatype Request = Request(data: Payload, parents: seq<Hash>, depth: nat, deps: int, callback: nat)

  type Pending = map<Hash, Request>

  /** What a request, once received, must see stored before itself. */
  type Needs = map<Hash, set<Hash>>

  ghost function Need(needs: Needs, p: Hash): set<Hash> {
    if p in needs then needs[p] else {}
  }

  // ---------------------------------------------------------------------------
  // Dependency counts
  // ---------------------------------------------------------------------------

  /** How often `q`, pending, names `p` as a parent. */
  ghost function Names(s: Pending, q: Hash, p: Hash): int {
    if q in s then multiset(s[q].parents)[p] else 0
  }

  /** How often `p` appears in the parent lists of pending requests. */
  ghost function Waiting(s: Pending, p: Hash): int {
    Sum(s.Keys, q => Names(s, q, p))
  }

  ghost predicate Exact(s: Pending, owed: multiset<Hash>, p: Hash) {
    p in s && s[p].deps == Waiting(s, p) + owed[p]
  }

  ghost predicate Counted(s: Pending, owed: multiset<Hash>) {
    forall p {:trigger Exact(s, owed, p)} :: p in s ==> Exact(s, owed, p)
  }

  /** A request that is waited for by dependents that have arrived themselves. */
  ghost predicate Arrived(s: Pending, p: Hash) {
    p in s && s[p].data.Received?
  }

  ghost predicate Attached(s: Pending, owed: multiset<Hash>) {
    && (forall q, p {:trigger p in s[q].parents} :: q in s && p in s[q].parents ==> Arrived(s, p))
    && (forall p :: p in owed ==> Arrived(s, p))
  }

  /** What an arrived request needs is stored, or pending with the request among its parents. */
  ghost predicate Waits(s: Pending, have: set<Hash>, needs: Needs) {
    forall p, n {:trigger Arrived(s, p), n in Need(needs, p)} ::
      Arrived(s, p) && n in Need(needs, p) ==> n in have || (n in s && p in s[n].parents)
  }

  /** A request waits only for what it needs. */
  ghost predicate Justified(s: Pending, needs: Needs) {
    forall q, p {:trigger p in s[q].parents} :: q in s && p in s[q].parents ==> q in Need(needs, p)
  }

  /** An arrived request still pending counts a dependency, except those in `idle`. */
  ghost predicate Held(s: Pending, idle: set<Hash>) {
    forall p :: Arrived(s, p) && p !in idle ==> s[p].deps > 0
  }

  ghost predicate Sound(s: Pending, have: set<Hash>, needs: Needs, owed: multiset<Hash>, idle: set<Hash>) {
    Counted(s, owed) && Attached(s, owed) && Waits(s, have, needs) && Justified(s, needs) && Held(s, idle)
  }

  lemma {:induction false} EmptySound(have: set<Hash>)
    ensures Sound(map[], have, map[], multiset{}, {})
  {
  }

  // ---------------------------------------------------------------------------
  // Counting or paying back dependencies
  // ---------------------------------------------------------------------------

  /** `deps += k` */
  function Owe(s: Pending, p: Hash, k: int): Pending
    requires p in s
  {
    s[p := s[p].(deps := s[p].deps + k)]
  }

  lemma {:induction false} OweCounted(s: Pending, owed: multiset<Hash>, p: Hash, k: int)
    requires Counted(s, owed) && p in s && owed[p] + k >= 0
    ensures Counted(Owe(s, p, k), owed[p := owed[p] + k])
  {
    var s' := Owe(s, p, k);
    forall x | x in s' ensures Exact(s', owed[p := owed[p] + k], x) {
      assert Exact(s, owed, x);
      SumSame(s.Keys, q => Names(s, q, x), q => Names(s', q, x));
      assert s'.Keys == s.Keys;
    }
  }

  lemma {:induction false} OweSound(s: Pending, have: set<Hash>, needs: Needs, owed: multiset<Hash>, idle: set<Hash>, p: Hash, k: int)
    requires Sound(s, have, needs, owed, idle) && Arrived(s, p) && owed[p] + k >= 0
    ensures Sound(Owe(s, p, k), have, needs, owed[p := owed[p] + k], if s[p].deps + k > 0 then idle else idle + {p})
  {
    OweCounted(s, owed, p, k);
    var s' := Owe(s, p, k);
    assert forall x :: Arrived(s', x) <==> Arrived(s, x);
  }

  // ---------------------------------------------------------------------------
  // Scheduling
  // ---------------------------------------------------------------------------

  /** A new request, or more parents for the pending one. */
  function Schedule(s: Pending, q: Hash, r: Request): Pending {
    if q in s then s[q := s[q].(parents := s[q].parents + r.parents)] else s[q := r]
  }

  lemma {:induction false} ScheduleWaiting(s: Pending, q: Hash, r: Request, p: Hash)
    ensures Waiting(Schedule(s, q, r), p) == Waiting(s, p) + multiset(r.parents)[p]
  {
    var s' := Schedule(s, q, r);
    if q in s {
      assert s'.Keys == s.Keys;
      SumChange(s.Keys, x => Names(s, x, p), x => Names(s', x, p), q);
    } else {
      assert s'.Keys == s.Keys + {q};
      SumAdd(s.Keys, x => Names(s', x, p), q);
      SumSame(s.Keys, x => Names(s, x, p), x => Names(s', x, p));
    }
  }

  /** A scheduled dependency is no longer owed but waited for. */
  lemma {:induction false} ScheduleCounted(s: Pending, owed: multiset<Hash>, q: Hash, r: Request)
    requires Counted(s, owed) && Attached(s, owed) && multiset(r.parents) <= owed && r.deps == 0 && r.data.Absent?
    ensures Counted(Schedule(s, q, r), owed - multiset(r.parents))
  {
    var s' := Schedule(s, q, r);
    forall x | x in s' ensures Exact(s', owed - multiset(r.parents), x) {
      ScheduleWaiting(s, q, r, x);
      if x in s {
        assert Exact(s, owed, x);
      } else {
        NoWaiters(s, owed, x);
      }
    }
  }

  lemma {:induction false} NoWaiters(s: Pending, owed: multiset<Hash>, x: Hash)
    requires Attached(s, owed) && x !in s
    ensures Waiting(s, x) == 0 && owed[x] == 0
  {
    forall q | q in s ensures Names(s, q, x) == 0 {
      assert x !in s[q].parents;
    }
    SumExtend({}, s.Keys, q => Names(s, q, x));
  }

  /** The request `p` now needs `q` and is attached to it. */
  lemma {:induction false} ScheduleSound(s: Pending, have: set<Hash>, needs: Needs, owed: multiset<Hash>, idle: set<Hash>, q: Hash, r: Request, p: Hash)
    requires Sound(s, have, needs, owed, idle) && p in owed && r.parents == [p] && r.deps == 0 && r.data.Absent?
    ensures Sound(Schedule(s, q, r), have, needs[p := Need(needs, p) + {q}], owed - multiset{p}, idle)
  {
    ScheduleCounted(s, owed, q, r);
    ScheduleShape(s, q, r);
    ScheduleWaits(s, have, needs, q, r, p);
  }

  lemma {:induction false} ScheduleWaits(s: Pending, have: set<Hash>, needs: Needs, q: Hash, r: Request, p: Hash)
    requires Waits(s, have, needs) && r.parents == [p] && r.data.Absent?
    ensures Waits(Schedule(s, q, r), have, needs[p := Need(needs, p) + {q}])
  {
    ScheduleShape(s, q, r);
    var s', needs' := Schedule(s, q, r), needs[p := Need(needs, p) + {q}];
    forall x, n | Arrived(s', x) && n in Need(needs', x) ensures n in have || (n in s' && x in s'[n].parents) {
      assert Arrived(s, x);
      if n !in Need(needs, x) {
        assert x == p && n == q;
      }
    }
  }

  lemma {:induction false} ScheduleRoot(s: Pending, have: set<Hash>, needs: Needs, owed: multiset<Hash>, idle: set<Hash>, q: Hash, r: Request)
    requires Sound(s, have, needs, owed, idle) && r.parents == [] && r.deps == 0 && r.data.Absent?
    ensures Sound(Schedule(s, q, r), have, needs, owed, idle)
  {
    ScheduleCounted(s, owed, q, r);
    ScheduleShape(s, q, r);
    assert owed - multiset(r.parents) == owed;
  }

  lemma {:induction false} ScheduleShape(s: Pending, q: Hash, r: Request)
    requires r.data.Absent?
    ensures Schedule(s, q, r).Keys == s.Keys + {q}
    ensures forall x :: Arrived(Schedule(s, q, r), x) <==> Arrived(s, x)
    ensures forall x :: x in s ==> Schedule(s, q, r)[x].deps == s[x].deps && forall p :: p in s[x].parents ==> p in Schedule(s, q, r)[x].parents
    ensures forall x, p :: x in Schedule(s, q, r) && p in Schedule(s, q, r)[x].parents ==> (x == q && p in r.parents) || (x in s && p in s[x].parents)
    ensures forall p :: p in r.parents ==> p in Schedule(s, q, r)[q].parents
  {
  }

  // ---------------------------------------------------------------------------
  // Finishing
  // ---------------------------------------------------------------------------

  lemma {:induction false} FinishWaiting(s: Pending, h: Hash, p: Hash)
    requires h in s
    ensures Waiting(s - {h}, p) == Waiting(s, p) - multiset(s[h].parents)[p]
  {
    SumRemove(s.Keys, q => Names(s, q, p), h);
    assert (s - {h}).Keys == s.Keys - {h};
    SumSame(s.Keys - {h}, q => Names(s, q, p), q => Names(s - {h}, q, p));
  }

  /** Nobody waits on behalf of a request that counts no dependency. */
  lemma {:induction false} NoneLeft(s: Pending, owed: multiset<Hash>, h: Hash)
    requires Counted(s, owed) && h in s && s[h].deps == 0
    ensures owed[h] == 0 && forall q :: q in s ==> h !in s[q].parents
  {
    assert Exact(s, owed, h);
    SumNonNegative(s.Keys, q => Names(s, q, h));
    forall q | q in s ensures h !in s[q].parents {
      assert Names(s, q, h) <= Waiting(s, h);
    }
  }

  /** A request without dependencies has all it needs stored. */
  lemma {:induction false} ReadyStored(s: Pending, have: set<Hash>, needs: Needs, owed: multiset<Hash>, idle: set<Hash>, h: Hash)
    requires Sound(s, have, needs, owed, idle) && Arrived(s, h) && s[h].deps == 0
    ensures Need(needs, h) <= have
  {
    NoneLeft(s, owed, h);
  }

  /** Storing a request that is ready turns its parent list into payments owed. */
  lemma {:induction false} FinishSound(s: Pending, have: set<Hash>, needs: Needs, owed: multiset<Hash>, idle: set<Hash>, h: Hash)
    requires Sound(s, have, needs, owed, {h} + idle) && Arrived(s, h) && s[h].deps == 0
    ensures Sound(s - {h}, have + {h}, needs, owed + multiset(s[h].parents), idle)
  {
    NoneLeft(s, owed, h);
    var s', o' := s - {h}, owed + multiset(s[h].parents);
    forall x | x in s' ensures Exact(s', o', x) {
      assert Exact(s, owed, x);
      FinishWaiting(s, h, x);
    }
    assert forall x :: Arrived(s', x) <==> Arrived(s, x) && x != h;
    forall p | p in o' ensures Arrived(s', p) {
      assert p in owed || p in s[h].parents;
    }
  }

  // ---------------------------------------------------------------------------
  // Receiving
  // ---------------------------------------------------------------------------

  /** Counts do not depend on the data. */
  lemma {:induction false} ReceiveCounted(s: Pending, owed: multiset<Hash>, h: Hash, blob: Bytes)
    requires Counted(s, owed) && h in s
    ensures Counted(s[h := s[h].(data := Received(blob))], owed)
  {
    var s' := s[h := s[h].(data := Received(blob))];
    assert s'.Keys == s.Keys;
    forall x | x in s' ensures Exact(s', owed, x) {
      assert Exact(s, owed, x);
      SumSame(s.Keys, q => Names(s, q, x), q => Names(s', q, x));
    }
  }

  lemma {:induction false} ReceiveSound(s: Pending, have: set<Hash>, needs: Needs, idle: set<Hash>, h: Hash, blob: Bytes)
    requires Sound(s, have, needs, multiset{}, idle) && h in s && s[h].data.Absent?
    ensures Sound(s[h := s[h].(data := Received(blob))], have, needs[h := {}], multiset{}, {h} + idle)
  {
    ReceiveCounted(s, multiset{}, h, blob);
    var s' := s[h := s[h].(data := Received(blob))];
    forall q | q in s ensures q in s' && s'[q].parents == s[q].parents && s'[q].deps == s[q].deps {}
    forall x ensures Arrived(s', x) <==> Arrived(s, x) || x == h {}
    forall x, n | Arrived(s', x) && n in Need(needs[h := {}], x) ensures n in have || (n in s' && x in s'[n].parents) {
      assert x != h && Arrived(s, x) && n in Need(needs, x);
    }
  }

  // ---------------------------------------------------------------------------
  // What scheduling leaves alone
  // ---------------------------------------------------------------------------

  /** Old requests keep all but their links, and new ones have not arrived. */
  ghost predicate Kept(s: Pending, s': Pending) {
    && (forall x :: x in s ==> x in s' && s'[x].data == s[x].data && s'[x].depth == s[x].depth && s'[x].callback == s[x].callback)
    && (forall x :: x in s' && x !in s ==> s'[x].data.Absent?)
  }

  lemma {:induction false} KeptSchedule(s: Pending, q: Hash, r: Request)
    requires r.data.Absent?
    ensures Kept(s, Schedule(s, q, r))
  {
  }

  ghost predicate Grown(needs: Needs, needs': Needs) {
    forall p :: Need(needs, p) <= Need(needs', p)
  }

  lemma {:induction false} DepsNonNegative(s: Pending, owed: multiset<Hash>, p: Hash)
    requires Counted(s, owed) && p in s
    ensures s[p].deps >= owed[p]
  {
    assert Exact(s, owed, p);
    SumNonNegative(s.Keys, q => Names(s, q, p));
  }

  /** A request whose data has not arrived counts no dependency. */
  lemma {:induction false} AbsentDeps(s: Pending, h: Hash)
    requires Counted(s, multiset{}) && Attached(s, multiset{}) && h in s && s[h].data.Absent?
    ensures s[h].deps == 0
  {
    assert Exact(s, multiset{}, h);
    forall q | q in s ensures Names(s, q, h) == 0 { assert h !in s[q].parents; }
    SumExtend({}, s.Keys, q => Names(s, q, h));
  }

  /** Needing something stored changes nothing. */
  lemma {:induction false} NeedStored(s: Pending, have: set<Hash>, needs: Needs, owed: multiset<Hash>, idle: set<Hash>, p: Hash, n: Hash)
    requires Sound(s, have, needs, owed, idle) && n in have
    ensures Sound(s, have, needs[p := Need(needs, p) + {n}], owed, idle)
  {
    var needs' := needs[p := Need(needs, p) + {n}];
    forall x, m | Arrived(s, x) && m in Need(needs', x) ensures m in have || (m in s && x in s[m].parents) {
      if m !in Need(needs, x) { assert m == n; }
    }
  }

  /** Counting a dependency and scheduling what it waits for. */
  lemma {:induction false} AttachSound(s: Pending, have: set<Hash>, needs: Needs, idle: set<Hash>, q: Hash, r: Request, p: Hash)
    requires Sound(s, have, needs, multiset{}, idle) && Arrived(s, p) && r.parents == [p] && r.deps == 0 && r.data.Absent?
    ensures Sound(Schedule(Owe(s, p, 1), q, r), have, needs[p := Need(needs, p) + {q}], multiset{}, idle)
    ensures Kept(s, Schedule(Owe(s, p, 1), q, r))
  {
    DepsNonNegative(s, multiset{}, p);
    OweSound(s, have, needs, multiset{}, idle, p, 1);
    var owed: multiset<Hash> := multiset{};
    ScheduleSound(Owe(s, p, 1), have, needs, owed[p := 1], idle, q, r, p);
    assert owed[p := 1] - multiset{p} == multiset{};
  }

  // ---------------------------------------------------------------------------
  // Progress
  // ---------------------------------------------------------------------------

  /** A request that has arrived, is still pending and waits for nothing. */
  ghost predicate Stuck(s: Pending, p: Hash) {
    Arrived(s, p) && s[p].deps == 0
  }

  /** The same requests are stuck, but for those in `but`. */
  ghost predicate Frozen(s: Pending, s': Pending, but: set<Hash>) {
    forall x :: x !in but ==> (Stuck(s, x) <==> Stuck(s', x))
  }

  lemma {:induction false} FrozenTrans(s: Pending, s1: Pending, s2: Pending, but: set<Hash>, but': set<Hash>)
    requires Frozen(s, s1, but) && Frozen(s1, s2, but') && but' <= but
    ensures Frozen(s, s2, but)
  {
  }

  lemma {:induction false} FrozenAll(s: Pending, s': Pending, p: Hash)
    requires Frozen(s, s', {p}) && !Stuck(s, p) && !Stuck(s', p)
    ensures Frozen(s, s', {})
  {
    forall x ensures Stuck(s, x) <==> Stuck(s', x) {
      if x != p { assert x !in {p}; }
    }
  }

  /** Each request waits for the next one on the path. */
  ghost predicate WaitPath(s: Pending, path: seq<Hash>) {
    && |path| > 0 && (forall i :: 0 <= i < |path| ==> path[i] in s)
    && forall i :: 0 < i < |path| ==> path[i - 1] in s[path[i]].parents
  }

  /** The request waits, through others or by itself, for data that has not arrived. */
  ghost predicate Moving(s: Pending, p: Hash) {
    exists path {:trigger WaitPath(s, path)} :: WaitPath(s, path) && path[0] == p && s[path[|path| - 1]].data.Absent?
  }

  ghost predicate Falling(needs: Needs, rank: Hash -> nat) {
    forall x, n :: n in Need(needs, x) ==> rank(n) < rank(x)
  }

  /** From a pending request one reaches one whose data has not arrived, or one that is stuck. */
  lemma {:induction false} WaitsForSome(s: Pending, have: set<Hash>, needs: Needs, idle: set<Hash>, p: Hash, rank: Hash -> nat) returns (path: seq<Hash>)
    requires Sound(s, have, needs, multiset{}, idle) && p in s && Falling(needs, rank)
    ensures WaitPath(s, path) && path[0] == p
    ensures s[path[|path| - 1]].data.Absent? || Stuck(s, path[|path| - 1])
    decreases rank(p)
  {
    path := [p];
    if s[p].data.Absent? || s[p].deps == 0 { return; }
    assert Arrived(s, p) && Exact(s, multiset{}, p);
    DepsNonNegative(s, multiset{}, p);
    var w := SumPositive(s.Keys, x => Names(s, x, p));
    assert p in s[w].parents;
    var rest := WaitsForSome(s, have, needs, idle, w, rank);
    path := [p] + rest;
    forall i | 0 < i < |path| ensures path[i - 1] in s[path[i]].parents {
      if i > 1 { assert path[i - 1] == rest[i - 2] && path[i] == rest[i - 1]; }
    }
  }

  /** Who waits for another request counts a dependency. */
  lemma {:induction false} WaiterCounts(s: Pending, owed: multiset<Hash>, path: seq<Hash>)
    requires Counted(s, owed) && WaitPath(s, path) && |path| > 1
    ensures s[path[0]].deps > 0
  {
    var p, q := path[0], path[1];
    assert p in s[q].parents && Exact(s, owed, p);
    SumNonNegative(s.Keys, x => Names(s, x, p));
    assert 0 < Names(s, q, p) <= Waiting(s, p);
  }

  /** A stuck request waits for nothing that could arrive. */
  lemma {:induction false} StuckDoesNotMove(s: Pending, owed: multiset<Hash>, p: Hash)
    requires Counted(s, owed) && Stuck(s, p)
    ensures !Moving(s, p)
  {
    forall path | WaitPath(s, path) && |path| > 1 ensures s[path[0]].deps > 0 { WaiterCounts(s, owed, path); }
  }

  /** While hash links go down, every pending request can move exactly when none is stuck. */
  lemma {:induction false} MovingExactly(s: Pending, have: set<Hash>, needs: Needs, idle: set<Hash>, rank: Hash -> nat)
    requires Sound(s, have, needs, multiset{}, idle) && Falling(needs, rank)
    ensures (forall p :: p in s ==> Moving(s, p)) <==> (forall p :: !Stuck(s, p))
  {
    forall p | Stuck(s, p) ensures !Moving(s, p) { StuckDoesNotMove(s, multiset{}, p); }
    if forall p :: !Stuck(s, p) {
      forall p | p in s ensures Moving(s, p) { var path := WaitsForSome(s, have, needs, idle, p, rank); }
    }
  }
}
