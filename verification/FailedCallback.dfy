/**
 What a leaf callback that returns an error does to a download (trie/sync.go): the node it was run
 on keeps its data but is neither stored nor asked for again.
 */
module FailedCallback {
  import opened Encoding
  import opened SyncGraph
  import opened SyncState
  import opened StateSync

  /** Every blob is a node with one value, and every callback fails on it without adding anything. */
  function Refusing(): Codec {
    Codec(_ => Good([Value([])]), (_, _) => Reply([], false), 0)
  }

  /**
   The root is asked for and delivered, and the callback fails on it.  Nothing is left to ask for,
   a second delivery is refused, and the root stays pending and stuck.
   */
  method Stall(blob: Bytes) returns (sync: Sync, first: Outcome, again: Outcome)
    ensures first == CallbackFailed && again == AlreadyProcessed
    ensures sync.Valid() && sync.requests.Keys == {1} && Stuck(sync.requests, 1) && |sync.queue| == 0 && sync.failed == {1}
  {
    sync := new Sync(1, map[], Refusing(), 7);
    var hashes, taken := sync.Missing(0);
    AllTaken(sync.queue, taken);
    first := Refuse(sync, blob);
    again := sync.ProcessOne(1, blob);
  }

  method Refuse(sync: Sync, blob: Bytes) returns (first: Outcome)
    requires sync.Valid() && sync.io == Refusing() && |sync.queue| == 0 && sync.failed == {}
    requires sync.requests == map[1 := Request(Absent, [], 0, 0, 7)]
    modifies sync
    ensures first == CallbackFailed
    ensures sync.Valid() && sync.requests.Keys == {1} && Stuck(sync.requests, 1) && |sync.queue| == 0 && sync.failed == {1}
  {
    ghost var items := sync.io.decode(blob).items;
    assert FailsOn(sync.io.react, 7, items[0]);
    ghost var st := sync.St();
    first := sync.ProcessOne(1, blob);
    NothingAdded(sync.io, st, sync.St(), blob);
  }

  lemma {:induction false} NothingAdded(io: Codec, st: State, st': State, blob: Bytes)
    requires io == Refusing() && LeftBehind(io, st, st', 1, blob)
    ensures st'.requests == Receive(st, 1, blob).requests && st'.queue == st.queue
  {
    var items, cb := io.decode(blob).items, st.requests[1].callback;
    var n: nat :| Handled(io.react, cb, items, n, false) && Adding(Fail(Receive(st, 1, blob), 1), st', 1, Added(io.react, cb, items[..n], io.emptyRoot));
    assert items[..n] == items && items[..0] == [];
    assert SubRoots([], io.emptyRoot) == {};
    assert Added(io.react, cb, items[..0], io.emptyRoot) == {};
    assert AddedBy(io.react, cb, items[0], io.emptyRoot) == {};
    assert Added(io.react, cb, items, io.emptyRoot) == {};
  }

  lemma {:induction false} AllTaken(queue: seq<(Hash, nat)>, taken: seq<(Hash, nat)>)
    requires Handed([(1, 0)], queue, taken) && |taken| == 1
    ensures |queue| == 0
  {
    assert |multiset([(1, 0)])| == |multiset(queue)| + |multiset(taken)|;
  }

  /** A node with a value and one hash child; its callback adds a sub-trie and then fails. */
  function Halfway(): Codec {
    Codec(blob => if blob == [] then Good([Value([]), Ref(2, 1)]) else Good([]), (_, _) => Reply([Sub(3, 0, 0)], false), 0)
  }

  /** The root and the sub-trie it waits for are pending; the root's hash child is not. */
  ghost predicate Halted(st: State) {
    && st.requests.Keys == {1, 3} && Arrived(st.requests, 1) && st.requests[3].data.Absent? && Have(st) == {}
    && Need(st.needs, 1) == {3} && (forall x :: x != 1 ==> Need(st.needs, x) == {}) && forall x :: !Stuck(st.requests, x)
  }

  lemma {:induction false} AfterFailure(io: Codec, st: State, st': State)
    requires io == Halfway() && Inv(io, st', multiset{}, {}) && LeftBehind(io, st, st', 1, [])
    requires st.requests == map[1 := Request(Absent, [], 0, 0, 7)] && st.needs == map[] && Have(st) == {}
    ensures Halted(st')
  {
    var items := io.decode([]).items;
    var st1 := Receive(st, 1, []);
    var n: nat :| Handled(io.react, 7, items, n, false) && Adding(Fail(st1, 1), st', 1, Added(io.react, 7, items[..n], io.emptyRoot)) &&
                  Added(io.react, 7, items[..n], io.emptyRoot) <= Need(st'.needs, 1);
    assert FailsOn(io.react, 7, items[0]) && n == 1;
    HalfwayAdded(io.react, items);
    AfterAdding(io, st, st1, st');
  }

  lemma {:induction false} AfterAdding(io: Codec, st: State, st1: State, st': State)
    requires st.requests == map[1 := Request(Absent, [], 0, 0, 7)] && st.needs == map[] && Have(st) == {} && st1 == Receive(st, 1, [])
    requires Adding(Fail(st1, 1), st', 1, {3}) && {3} <= Need(st'.needs, 1) && Inv(io, st', multiset{}, {})
    ensures Halted(st')
  {
    assert Arrived(st1.requests, 1) && Have(st') == {};
    OnlyWaits(io, st');
  }

  lemma {:induction false} HalfwayAdded(react: Reaction, items: seq<Item>)
    requires react == Halfway().react && items == [Value([]), Ref(2, 1)]
    ensures Added(react, 7, items[..1], 0) == {3}
  {
    var none: seq<Item> := [];
    assert items[..1] == none + [Value([])];
    AddedAppend(react, 7, none, Value([]), 0);
    assert SubRoots([Sub(3, 0, 0)], 0) == {3} by { assert [Sub(3, 0, 0)][0].root == 3; }
  }

  lemma {:induction false} OnlyWaits(io: Codec, st: State)
    requires Inv(io, st, multiset{}, {}) && st.requests.Keys <= {1, 3} && Arrived(st.requests, 1) && (3 in st.requests ==> st.requests[3].data.Absent?)
    requires Have(st) == {} && Need(st.needs, 1) == {3}
    ensures 3 in st.requests && forall x :: !Stuck(st.requests, x)
  {
    OpenInv(io, st, multiset{}, {});
    assert 3 in Need(st.needs, 1) && 1 in st.requests[3].parents;
    assert WaitPath(st.requests, [1, 3]);
    WaiterCounts(st.requests, multiset{}, [1, 3]);
  }

  /** With the data of both there, nothing can be pending. */
  lemma {:induction false} NothingPending(io: Codec, st: State, c: Hash)
    requires c != 1 && Inv(io, st, multiset{}, {}) && st.requests.Keys <= {1, c} && (forall x :: !Stuck(st.requests, x))
    requires (forall x :: x != 1 ==> Need(st.needs, x) == {}) && Need(st.needs, 1) <= {c}
    requires forall x :: x in st.requests ==> st.requests[x].data.Received?
    ensures st.requests == map[]
  {
    var rank: Hash -> nat := h => if h == c then 0 else 1;
    Progress(io, st, rank);
    forall p ensures !Moving(st.requests, p) {}
    assert st.requests.Keys == {};
  }

  lemma {:induction false} BothArrived(io: Codec, st: State)
    requires Inv(io, st, multiset{}, {}) && st.requests.Keys <= {1, 3}
    requires Delivered(st.requests, st.batch, 1, []) && Delivered(st.requests, st.batch, 3, [0])
    ensures forall x :: x in st.requests ==> st.requests[x].data.Received?
    ensures 1 in st.requests || (1 in st.batch && st.batch[1] == [])
  {
    OpenInv(io, st, multiset{}, {});
    forall x | x in st.requests ensures st.requests[x].data.Received? { assert !Settled(io, st, x); }
  }

  /**
   A download that ends incomplete: the callback of the root adds a sub-trie and fails.  When the
   sub-trie arrives, the root is stored too, nothing is pending, and the root's hash child is nowhere.
   */
  method Incomplete() returns (sync: Sync, first: Outcome, second: Outcome)
    ensures first == CallbackFailed && second in {Committed, Held}
    ensures sync.Valid() && sync.requests == map[] && 1 in sync.batch && sync.batch[1] == [] && sync.io.decode([]).Good?
    ensures 2 in Refs(sync.io.decode([]).items) && 2 !in SyncState.Store(sync.St())
    ensures !WholeUnder(sync.io, SyncState.Store(sync.St()), (1, 7)) && sync.root == 1 && sync.first == 7
  {
    sync := new Sync(1, map[], Halfway(), 7);
    ghost var items := sync.io.decode([]).items;
    assert FailsOn(sync.io.react, 7, items[0]) && items[1] == Ref(2, 1);
    ghost var st := sync.St();
    first := sync.ProcessOne(1, []);
    AfterFailure(sync.io, st, sync.St());
    second := Deliver(sync);
    LeadsOut(sync.io, SyncState.Store(sync.St()), 1, 7, 2);
  }

  lemma {:induction false} LeadsOut(io: Codec, store: map<Hash, Bytes>, h: Hash, cb: nat, k: Hash)
    requires h in store && io.decode(store[h]).Good? && k in Refs(io.decode(store[h]).items)
    ensures Reach(io, store, (h, cb), (k, cb)) && (k !in store ==> !WholeUnder(io, store, (h, cb)))
  {
    ReachSelf(io, store, (h, cb));
    ReachOn(io, store, (h, cb), (h, cb), (k, cb));
  }

  method Deliver(sync: Sync) returns (second: Outcome)
    requires sync.Valid() && sync.io == Halfway() && Halted(sync.St()) && Delivered(sync.requests, sync.batch, 1, [])
    modifies sync
    ensures second in {Committed, Held}
    ensures sync.Valid() && sync.requests == map[] && 1 in sync.batch && sync.batch[1] == [] && 2 !in SyncState.Store(sync.St())
  {
    ghost var st := sync.St();
    assert sync.io.decode([0]).items == [];
    second := sync.ProcessOne(3, [0]);
    assert Delivered(sync.requests, sync.batch, 1, []) && Delivered(sync.requests, sync.batch, 3, [0]);
    assert Leads(sync.io, st.requests[3].callback, [], Have(st)) == {};
    BothArrived(sync.io, sync.St());
    NothingPending(sync.io, sync.St(), 3);
  }

  /** A blob of one byte is no node; the empty one is a node with the child 2. */
  function Picky(): Codec {
    Codec(blob => if blob == [] then Good([Ref(2, 1)]) else Bad, (_, _) => Reply([], true), 0)
  }

  /**
   A download that ends with a blob that is no node: it was in the database under the hash of the
   root's child, the child counts as available, and nothing is asked for.
   */
  method Undecodable() returns (sync: Sync, res: Outcome)
    ensures res in {Committed, Held} && sync.Valid() && sync.requests == map[] && sync.failed == {} && 1 in sync.batch && sync.batch[1] == []
    ensures Reach(sync.io, SyncState.Store(sync.St()), (1, 0), (2, 0)) && sync.root == 1 && sync.first == 0
    ensures 2 in sync.junk && 2 in SyncState.Store(sync.St()) && sync.io.decode(SyncState.Store(sync.St())[2]).Bad?
  {
    sync := new Sync(1, map[2 := [0]], Picky(), 0);
    ghost var st, items := sync.St(), sync.io.decode([]).items;
    assert items == [Ref(2, 1)] && Refs(items) == {2} by { assert items[0].hash == 2; }
    assert items[..0] == [] && AddedBy(sync.io.react, 0, items[0], 0) == {};
    assert Leads(sync.io, 0, items, Have(st)) == {};
    res := sync.ProcessOne(1, []);
    Arrives(sync.io, sync.St());
    NothingPending(sync.io, sync.St(), 2);
    LeadsOut(sync.io, SyncState.Store(sync.St()), 1, 0, 2);
  }

  lemma {:induction false} Arrives(io: Codec, st: State)
    requires Inv(io, st, multiset{}, {}) && st.requests.Keys <= {1} && Delivered(st.requests, st.batch, 1, [])
    ensures forall x :: x in st.requests ==> st.requests[x].data.Received?
  {
    OpenInv(io, st, multiset{}, {});
    forall x | x in st.requests ensures st.requests[x].data.Received? { assert !Settled(io, st, x); }
  }
}
