/**
 Which callback a node is fetched under (trie/sync.go): a hash child inherits the callback of its
 parent, and a node that is asked for twice keeps the callback of the first request, so that what the
 second one would have added is not fetched.
 */
module SharedNode {
  import opened Encoding
  import opened SyncGraph
  import opened SyncState
  import opened StateSync
  import opened FailedCallback

  /** What an accepted delivery does, from one state to the next. */
  ghost predicate Taking(io: Codec, st: State, st': State, h: Hash, blob: Bytes, items: seq<Item>) {
    && h in st.requests && Asks(io, st, st', h, items) && Local(st, st', h, Leads(io, st.requests[h].callback, items, Have(st)))
    && st'.db == st.db && st'.failed == st.failed && Remembers(st.requests, st.batch, st'.requests, st'.batch) && Delivered(st'.requests, st'.batch, h, blob)
    && Frozen(st.requests, st'.requests, {}) && st'.batch.Keys <= st.batch.Keys + st.requests.Keys && Inv(io, st', multiset{}, {})
  }

  /** `Taking`, opened only where the old state is looked at. */
  ghost predicate Takes(io: Codec, st: State, st': State, h: Hash, blob: Bytes, items: seq<Item>) {
    forall n {:trigger Look(st, n)} :: Look(st, n) ==> Taking(io, st, st', h, blob, items)
  }

  lemma {:induction false} OpenTakes(io: Codec, st: State, st': State, h: Hash, blob: Bytes, items: seq<Item>)
    requires Takes(io, st, st', h, blob, items)
    ensures Taking(io, st, st', h, blob, items)
  {
    assert Look(st, 0);
  }

  /** Delivers a node that was asked for and on which no callback fails. */
  method Take(sync: Sync, h: Hash, blob: Bytes, ghost items: seq<Item>) returns (res: Outcome)
    requires sync.Valid() && h in sync.requests && sync.requests[h].data.Absent? && sync.io.decode(blob) == Good(items)
    requires !Fails(sync.io.react, sync.requests[h].callback, items)
    modifies sync
    ensures res in {Committed, Held} && sync.Valid() && Takes(sync.io, old(sync.St()), sync.St(), h, blob, items)
  {
    res := sync.ProcessOne(h, blob);
  }

  // ---------------------------------------------------------------------------
  // A callback that is passed on
  // ---------------------------------------------------------------------------

  const CHILD: seq<Item> := [Ref(2, 3)]
  const VALUE: seq<Item> := [Value([0])]

  /** Node 1 has the child 2, which holds a value; callback 1 adds the sub-trie 7 on it. */
  function Plain(): Codec {
    Codec(blob => if blob == [1] then Good(CHILD) else Good(VALUE), (cb, _) => Reply(if cb == 1 then [Sub(7, 4, 5)] else [], true), 0)
  }

  /** A callback that adds one sub-trie on the only value of a node. */
  lemma {:induction false} OneSub(react: Reaction, cb: nat, v: Bytes, s: Sub, empty: Hash)
    requires cb != 0 && react(cb, v).subs == [s] && s.root != empty
    ensures SubsOf(react, cb, [Value(v)], empty) == [s]
  {
    var none: seq<Item> := [];
    assert none + [Value(v)] == [Value(v)];
    SubsAppend(react, cb, none, Value(v), empty);
    RealOne(s, empty);
  }

  lemma {:induction false} NoSubs(react: Reaction, cb: nat, items: seq<Item>, item: Item, empty: Hash)
    requires item.Ref?
    ensures SubsOf(react, cb, items + [item], empty) == SubsOf(react, cb, items, empty)
  {
    SubsAppend(react, cb, items, item, empty);
  }

  lemma {:induction false} OneRef(items: seq<Item>, item: Item, depth: nat, cb: nat)
    requires item.Ref? && RefsOf(items, depth, cb) == []
    ensures RefsOf(items + [item], depth, cb) == [Sub(item.hash, depth + item.step, cb)]
  {
    RefsOfAppend(items, item, depth, cb);
  }

  lemma {:induction false} NoRefs(v: Bytes, depth: nat, cb: nat)
    ensures RefsOf([Value(v)], depth, cb) == []
  {
    var none: seq<Item> := [];
    assert none + [Value(v)] == [Value(v)];
    RefsOfAppend(none, Value(v), depth, cb);
  }

  lemma {:induction false} ChildAsks(react: Reaction)
    ensures SubsOf(react, 1, CHILD, 0) == [] && RefsOf(CHILD, 0, 1) == [Sub(2, 3, 1)]
  {
    var none: seq<Item> := [];
    assert none + [Ref(2, 3)] == CHILD;
    NoSubs(react, 1, none, Ref(2, 3), 0);
    OneRef(none, Ref(2, 3), 0, 1);
  }

  /** A list of one names its only entry. */
  lemma {:induction false} OnlyAsk(asks: seq<Sub>, s: Sub, x: Hash, depth: nat, cb: nat)
    requires asks == [s] && FirstOf(asks, x, depth, cb)
    ensures s == Sub(x, depth, cb)
  {
  }

  /** A hash is pending with the given depth and callback, and its data has not arrived. */
  ghost predicate Awaited(st: State, s: Sub) {
    s.root in st.requests && st.requests[s.root].data.Absent? && st.requests[s.root].depth == s.depth && st.requests[s.root].callback == s.callback
  }

  lemma {:induction false} ChildAsked(st: State, st': State)
    requires st.requests == map[1 := Request(Absent, [], 0, 0, 1)] && Have(st) == {} && Takes(Plain(), st, st', 1, [1], CHILD)
    ensures Awaited(st', Sub(2, 3, 1)) && 7 !in st'.requests && 7 !in Have(st')
  {
    OpenTakes(Plain(), st, st', 1, [1], CHILD);
    ChildAsks(Plain().react);
    assert Have(st') <= {1};
    OnlyChild(Plain(), st, st');
  }

  lemma {:induction false} OnlyChild(io: Codec, st: State, st': State)
    requires st.requests.Keys == {1} && Have(st') <= {1} && Requests(io, st, st', [], [Sub(2, 3, 1)])
    ensures Awaited(st', Sub(2, 3, 1)) && 7 !in st'.requests
  {
    var refs := [Sub(2, 3, 1)];
    assert refs[0].root == 2 && [] + refs == refs;
    forall x | x in st'.requests && x != 1 ensures st'.requests[x].data.Absent? && Sub(2, 3, 1) == Sub(x, st'.requests[x].depth, st'.requests[x].callback) {
      OnlyAsk(refs, Sub(2, 3, 1), x, st'.requests[x].depth, st'.requests[x].callback);
    }
  }

  lemma {:induction false} SubAsked(st: State, st': State)
    requires Awaited(st, Sub(2, 3, 1)) && 7 !in st.requests && 7 !in Have(st) && Takes(Plain(), st, st', 2, [2], VALUE)
    ensures Awaited(st', Sub(7, 4, 5))
  {
    OpenTakes(Plain(), st, st', 2, [2], VALUE);
    OneSub(Plain().react, 1, [0], Sub(7, 4, 5), 0);
    NoRefs([0], 3, 1);
    OnlySub(Plain(), st, st');
  }

  lemma {:induction false} OnlySub(io: Codec, st: State, st': State)
    requires 7 !in st.requests && 7 !in Have(st) && Requests(io, st, st', [Sub(7, 4, 5)], []) && st'.db == st.db && st'.batch.Keys <= st.batch.Keys + st.requests.Keys
    ensures Awaited(st', Sub(7, 4, 5))
  {
    var subs := [Sub(7, 4, 5)];
    assert subs[0].root == 7 && subs + [] == subs;
    assert 7 in st'.requests;
    OnlyAsk(subs, Sub(7, 4, 5), 7, st'.requests[7].depth, st'.requests[7].callback);
  }

  /** The callback of the root is passed on to its child, and the sub-trie it adds there is asked for. */
  method Inherits() returns (sync: Sync, first: Outcome, second: Outcome)
    ensures first in {Committed, Held} && second in {Committed, Held} && sync.Valid() && sync.first == 1
    ensures Awaited(sync.St(), Sub(7, 4, 5))
  {
    sync := new Sync(1, map[], Plain(), 1);
    ghost var st := sync.St();
    first := Take(sync, 1, [1], CHILD);
    ChildAsked(st, sync.St());
    st := sync.St();
    second := Take(sync, 2, [2], VALUE);
    SubAsked(st, sync.St());
  }

  // ---------------------------------------------------------------------------
  // A node that is asked for twice
  // ---------------------------------------------------------------------------

  const ENTRIES: seq<Item> := [Value([0]), Ref(2, 1)]
  const LEAF: seq<Item> := [Value([1])]

  /**
   Node 1 holds a value and has the child 2, and callback 1 adds 2 on the value as a sub-trie without a
   callback.  Node 2 holds another value, on which callback 1 would add the sub-trie 7.
   */
  function Shared(): Codec {
    Codec(blob => if blob == [1] then Good(ENTRIES) else Good(LEAF),
          (cb, v) => Reply(if cb != 1 then [] else if v == [0] then [Sub(2, 0, 0)] else [Sub(7, 0, 1)], true), 0)
  }

  lemma {:induction false} SharedSubs(react: Reaction)
    requires react == Shared().react
    ensures SubsOf(react, 1, ENTRIES, 0) == [Sub(2, 0, 0)] && SubsOf(react, 1, LEAF, 0) == [Sub(7, 0, 1)]
  {
    assert ENTRIES == [Value([0])] + [Ref(2, 1)];
    OneSub(react, 1, [0], Sub(2, 0, 0), 0);
    NoSubs(react, 1, [Value([0])], Ref(2, 1), 0);
    OneSub(react, 1, [1], Sub(7, 0, 1), 0);
  }

  lemma {:induction false} SharedRefs()
    ensures RefsOf(ENTRIES, 0, 1) == [Sub(2, 1, 1)] && Refs(ENTRIES) == {2} && Refs(LEAF) == {}
  {
    var one: seq<Item> := [Value([0])];
    assert ENTRIES == one + [Ref(2, 1)] && one[..0] == [];
    RefsOfAppend(one, Ref(2, 1), 0, 1);
    RefsAppend(one, Ref(2, 1));
    assert Refs(one) == {};
  }

  lemma {:induction false} SharedAdded()
    ensures Added(Shared().react, 1, ENTRIES, 0) == {2} && Added(Shared().react, 0, LEAF, 0) == {}
  {
    var none, one: seq<Item> := [], [Value([0])];
    var react := Shared().react;
    assert ENTRIES == one + [Ref(2, 1)] && one == none + [Value([0])] && LEAF == none + [Value([1])];
    AddedAppend(react, 1, one, Ref(2, 1), 0);
    AddedAppend(react, 1, none, Value([0]), 0);
    AddedAppend(react, 0, none, Value([1]), 0);
    assert SubRoots([Sub(2, 0, 0)], 0) == {2} by { assert [Sub(2, 0, 0)][0].root == 2; }
  }

  /** Under callback 1 the root leads to node 2, and that to the sub-trie 7. */
  lemma {:induction false} LeadsToSeven(store: map<Hash, Bytes>)
    requires 1 in store && store[1] == [1] && 2 in store && store[2] == [2]
    ensures Reach(Shared(), store, (1, 1), (7, 1))
  {
    var io := Shared();
    SharedSubs(io.react);
    SharedRefs();
    ReachSelf(io, store, (1, 1));
    assert Links(io, store, (1, 1), (2, 1));
    ReachOn(io, store, (1, 1), (1, 1), (2, 1));
    assert SubsOf(io.react, 1, LEAF, 0)[0] == Sub(7, 0, 1);
    assert Links(io, store, (2, 1), (7, 1));
    ReachOn(io, store, (1, 1), (2, 1), (7, 1));
  }

  /** Node 2 is asked for as the sub-trie first, and so without a callback. */
  ghost predicate AskedPlain(st: State) {
    && 2 in st.requests && st.requests.Keys <= {1, 2} && st.requests[2].data.Absent? && st.requests[2].callback == 0
    && st.db == map[] && st.batch == map[] && st.failed == {}
    && (forall x :: x != 1 ==> Need(st.needs, x) == {}) && Need(st.needs, 1) <= {2} && forall x :: !Stuck(st.requests, x)
  }

  lemma {:induction false} FirstOfTwo(asks: seq<Sub>, depth: nat, cb: nat)
    requires asks == [Sub(2, 0, 0), Sub(2, 1, 1)] && FirstOf(asks, 2, depth, cb)
    ensures cb == 0
  {
    var i :| 0 <= i < |asks| && asks[i] == Sub(2, depth, cb) && forall j :: 0 <= j < i ==> asks[j].root != 2;
    assert asks[0].root == 2;
  }

  lemma {:induction false} AfterRoot(st: State, st': State)
    requires st.requests == map[1 := Request(Absent, [], 0, 0, 1)] && st.needs == map[] && st.batch == map[] && st.db == map[] && st.failed == {}
    requires (forall x :: !Stuck(st.requests, x)) && Takes(Shared(), st, st', 1, [1], ENTRIES)
    ensures AskedPlain(st') && Delivered(st'.requests, st'.batch, 1, [1])
  {
    OpenTakes(Shared(), st, st', 1, [1], ENTRIES);
    assert st'.batch.Keys <= {1};
    RootAsks(st, st');
    RootBrings(st, st');
    RootWaits(st');
  }

  lemma {:induction false} RootAsks(st: State, st': State)
    requires st.requests == map[1 := Request(Absent, [], 0, 0, 1)] && Asks(Shared(), st, st', 1, ENTRIES) && st'.db == map[] && st'.batch.Keys <= {1}
    ensures 2 in st'.requests && st'.requests[2].data.Absent? && st'.requests[2].callback == 0
  {
    SharedSubs(Shared().react);
    SharedRefs();
    var subs, refs := [Sub(2, 0, 0)], [Sub(2, 1, 1)];
    assert subs[0].root == 2;
    assert 2 in st'.requests;
    assert subs + refs == [Sub(2, 0, 0), Sub(2, 1, 1)];
    FirstOfTwo(subs + refs, st'.requests[2].depth, st'.requests[2].callback);
  }

  lemma {:induction false} RootBrings(st: State, st': State)
    requires st.requests.Keys == {1} && st.needs == map[] && Have(st) == {} && Local(st, st', 1, Leads(Shared(), 1, ENTRIES, Have(st)))
    ensures st'.requests.Keys <= {1, 2} && (forall x :: x != 1 ==> Need(st'.needs, x) == {}) && Need(st'.needs, 1) <= {2}
  {
    SharedRefs();
    SharedAdded();
  }

  /** The root is not stored while node 2 is not. */
  lemma {:induction false} RootWaits(st: State)
    requires Inv(Shared(), st, multiset{}, {}) && st.db == map[] && st.batch.Keys <= {1} && st.failed == {} && Delivered(st.requests, st.batch, 1, [1])
    ensures st.batch == map[]
  {
    OpenInv(Shared(), st, multiset{}, {});
    StoreClosed(Shared(), st);
    SharedRefs();
    assert 1 !in Store(st);
    assert st.batch.Keys == {};
  }

  lemma {:induction false} AfterLeaf(st: State, st': State)
    requires AskedPlain(st) && Delivered(st.requests, st.batch, 1, [1]) && Takes(Shared(), st, st', 2, [2], LEAF)
    ensures st'.requests == map[] && st'.failed == {} && st'.db == map[]
    ensures st'.batch.Keys == {1, 2} && st'.batch[1] == [1] && st'.batch[2] == [2]
  {
    OpenTakes(Shared(), st, st', 2, [2], LEAF);
    SharedRefs();
    SharedAdded();
    assert Leads(Shared(), 0, LEAF, Have(st)) == {};
    assert Delivered(st'.requests, st'.batch, 1, [1]);
    TwoArrived(Shared(), st');
    NothingPending(Shared(), st', 2);
  }

  /** No callback fails here. */
  lemma {:induction false} NeverFails(cb: nat, items: seq<Item>)
    ensures !Fails(Shared().react, cb, items)
  {
  }

  /**
   The download ends with nothing pending and no callback failed, and the sub-trie 7 is nowhere,
   although the root leads to it under its callback.
   */
  method LosesSubTrie() returns (sync: Sync, first: Outcome, second: Outcome)
    ensures first in {Committed, Held} && second in {Committed, Held}
    ensures sync.Valid() && sync.root == 1 && sync.first == 1 && sync.requests == map[] && sync.failed == {}
    ensures Reach(sync.io, SyncState.Store(sync.St()), (1, 1), (7, 1)) && 7 !in SyncState.Store(sync.St())
    ensures !WholeUnder(sync.io, SyncState.Store(sync.St()), (1, 1))
  {
    sync := new Sync(1, map[], Shared(), 1);
    ghost var st := sync.St();
    NeverFails(1, ENTRIES);
    first := Take(sync, 1, [1], ENTRIES);
    AfterRoot(st, sync.St());
    st := sync.St();
    NeverFails(0, LEAF);
    second := Take(sync, 2, [2], LEAF);
    AfterLeaf(st, sync.St());
    LeadsToSeven(SyncState.Store(sync.St()));
  }

  lemma {:induction false} TwoArrived(io: Codec, st: State)
    requires Inv(io, st, multiset{}, {}) && st.requests.Keys <= {1, 2}
    requires Delivered(st.requests, st.batch, 1, [1]) && Delivered(st.requests, st.batch, 2, [2])
    ensures forall x :: x in st.requests ==> st.requests[x].data.Received?
  {
    OpenInv(io, st, multiset{}, {});
    forall x | x in st.requests ensures st.requests[x].data.Received? { assert !Settled(io, st, x); }
  }
}
