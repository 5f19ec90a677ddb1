/**
 The state of the state-sync scheduler of trie/sync.go as a value: the scheduler's invariant
 and the steps that keep it.  Decoding a node and reacting to a leaf are parameters: `decode`
 gives the entries of a blob, and `react` the sub-tries a callback adds when it sees a value and
 whether it then succeeds.
 */
module SyncState {
  import opened Encoding
  import opened SyncGraph

  /** The zero hash stands for "no parent". */
  const ZERO: Hash := 0

  datatype Item = Ref(hash: Hash, step: nat) | Value(v: Bytes)

  datatype Decoded = Bad | Good(items: seq<Item>)

  datatype Sub = Sub(root: Hash, depth: nat, callback: nat)

  type Decoder = Bytes -> Decoded

  /** What a callback does: it adds sub-tries, and may return an error afterwards. */
  datatype Reply = Reply(subs: seq<Sub>, ok: bool)

  /** Callback 0 is the nil callback. */
  type Reaction = (nat, Bytes) -> Reply

  function Refs(items: seq<Item>): set<Hash> {
    set i | 0 <= i < |items| && items[i].Ref? :: items[i].hash
  }

  function SubRoots(subs: seq<Sub>, empty: Hash): set<Hash> {
    set i | 0 <= i < |subs| && subs[i].root != empty :: subs[i].root
  }

  /** The sub-tries the callback adds on the values of a node. */
  function Added(react: Reaction, cb: nat, items: seq<Item>, empty: Hash): set<Hash> {
    if items == [] then {}
    else Added(react, cb, items[..|items| - 1], empty) + AddedBy(react, cb, items[|items| - 1], empty)
  }

  function AddedBy(react: Reaction, cb: nat, item: Item, empty: Hash): set<Hash> {
    if item.Value? && cb != 0 then SubRoots(react(cb, item.v).subs, empty) else {}
  }

  /** The sub-tries of a list that are not empty. */
  function Real(subs: seq<Sub>, empty: Hash): seq<Sub> {
    if subs == [] then []
    else Real(subs[..|subs| - 1], empty) + if subs[|subs| - 1].root != empty then [subs[|subs| - 1]] else []
  }

  /** The sub-tries the callback adds on the values of a node, one after the other. */
  function SubsOf(react: Reaction, cb: nat, items: seq<Item>, empty: Hash): seq<Sub> {
    if items == [] then []
    else SubsOf(react, cb, items[..|items| - 1], empty) + SubsBy(react, cb, items[|items| - 1], empty)
  }

  function SubsBy(react: Reaction, cb: nat, item: Item, empty: Hash): seq<Sub> {
    if item.Value? && cb != 0 then Real(react(cb, item.v).subs, empty) else []
  }

  /** The hash children of a node, which inherit its callback. */
  function RefsOf(items: seq<Item>, depth: nat, cb: nat): seq<Sub> {
    if items == [] then []
    else RefsOf(items[..|items| - 1], depth, cb) + RefBy(items[|items| - 1], depth, cb)
  }

  function RefBy(item: Item, depth: nat, cb: nat): seq<Sub> {
    if item.Ref? then [Sub(item.hash, depth + item.step, cb)] else []
  }

  /** The first in the list with this root has this depth and callback. */
  ghost predicate FirstOf(asks: seq<Sub>, x: Hash, depth: nat, cb: nat) {
    exists i :: 0 <= i < |asks| && asks[i] == Sub(x, depth, cb) && forall j :: 0 <= j < i ==> asks[j].root != x
  }

  lemma {:induction false} FirstLeft(a: seq<Sub>, b: seq<Sub>, x: Hash, depth: nat, cb: nat)
    requires FirstOf(a, x, depth, cb)
    ensures FirstOf(a + b, x, depth, cb)
  {
    var i :| 0 <= i < |a| && a[i] == Sub(x, depth, cb) && forall j :: 0 <= j < i ==> a[j].root != x;
    assert (a + b)[i] == a[i];
  }

  /** None has this root. */
  ghost predicate NoneWith(asks: seq<Sub>, x: Hash) {
    forall i :: 0 <= i < |asks| ==> asks[i].root != x
  }

  lemma {:induction false} NoneAppend(a: seq<Sub>, b: seq<Sub>, x: Hash)
    ensures NoneWith(a + b, x) <==> NoneWith(a, x) && NoneWith(b, x)
  {
    var all := a + b;
    if NoneWith(all, x) {
      forall i | 0 <= i < |a| ensures a[i].root != x { assert all[i] == a[i]; }
      forall i | 0 <= i < |b| ensures b[i].root != x { assert all[|a| + i] == b[i]; }
    }
  }

  lemma {:induction false} FirstRight(a: seq<Sub>, b: seq<Sub>, x: Hash, depth: nat, cb: nat)
    requires FirstOf(b, x, depth, cb) && NoneWith(a, x)
    ensures FirstOf(a + b, x, depth, cb)
  {
    var i :| 0 <= i < |b| && b[i] == Sub(x, depth, cb) && forall j :: 0 <= j < i ==> b[j].root != x;
    assert (a + b)[|a| + i] == b[i];
  }

  lemma {:induction false} RealAppend(subs: seq<Sub>, s: Sub, empty: Hash)
    ensures Real(subs + [s], empty) == Real(subs, empty) + Real([s], empty)
  {
    assert (subs + [s])[..|subs|] == subs;
    assert [s][..0] == [] && Real([], empty) == [];
  }

  lemma {:induction false} SubsAppend(react: Reaction, cb: nat, items: seq<Item>, x: Item, empty: Hash)
    ensures SubsOf(react, cb, items + [x], empty) == SubsOf(react, cb, items, empty) + SubsBy(react, cb, x, empty)
  {
    assert (items + [x])[..|items|] == items;
  }

  lemma {:induction false} RefsOfAppend(items: seq<Item>, x: Item, depth: nat, cb: nat)
    ensures RefsOf(items + [x], depth, cb) == RefsOf(items, depth, cb) + RefBy(x, depth, cb)
  {
    assert (items + [x])[..|items|] == items;
  }

  /** Whoever is first among the children that are not stored is first among all of them. */
  lemma {:induction false} FirstMissing(items: seq<Item>, have: set<Hash>, depth: nat, cb: nat, x: Hash, d: nat, c: nat)
    requires FirstOf(RefsOf(MissingOf(items, have), depth, cb), x, d, c)
    ensures FirstOf(RefsOf(items, depth, cb), x, d, c)
    decreases |items|
  {
    var front, last := items[..|items| - 1], items[|items| - 1];
    var some := MissingOf(front, have);
    assert items == front + [last];
    RefsOfAppend(front, last, depth, cb);
    RefsOfAppend(some, last, depth, cb);
    assert some + [] == some;
    if FirstOf(RefsOf(some, depth, cb), x, d, c) {
      FirstMissing(front, have, depth, cb, x, d, c);
      FirstLeft(RefsOf(front, depth, cb), RefBy(last, depth, cb), x, d, c);
    } else {
      LastFirst(RefsOf(some, depth, cb), RefBy(last, depth, cb), x, d, c);
      NotMissed(front, have, depth, cb, x);
      FirstRight(RefsOf(front, depth, cb), RefBy(last, depth, cb), x, d, c);
    }
  }

  lemma {:induction false} LastFirst(a: seq<Sub>, b: seq<Sub>, x: Hash, d: nat, c: nat)
    requires FirstOf(a + b, x, d, c) && !FirstOf(a, x, d, c)
    ensures FirstOf(b, x, d, c) && NoneWith(a, x)
  {
    var i :| 0 <= i < |a + b| && (a + b)[i] == Sub(x, d, c) && forall j :: 0 <= j < i ==> (a + b)[j].root != x;
    forall j | 0 <= j < |a| ensures a[j] == (a + b)[j] {}
    assert i >= |a| && b[i - |a|] == Sub(x, d, c);
    forall j | 0 <= j < i - |a| ensures b[j].root != x { assert b[j] == (a + b)[|a| + j]; }
  }

  /** A child that is not stored is missing if it is a child at all. */
  lemma {:induction false} NotMissed(items: seq<Item>, have: set<Hash>, depth: nat, cb: nat, x: Hash)
    requires x !in have
    ensures NoneWith(RefsOf(MissingOf(items, have), depth, cb), x) <==> NoneWith(RefsOf(items, depth, cb), x)
    decreases |items|
  {
    if items != [] {
      var front, last := items[..|items| - 1], items[|items| - 1];
      NotMissed(front, have, depth, cb, x);
      assert items == front + [last];
      NotMissedLast(front, MissingOf(front, have), last, have, depth, cb, x);
    }
  }

  lemma {:induction false} NotMissedLast(front: seq<Item>, some: seq<Item>, last: Item, have: set<Hash>, depth: nat, cb: nat, x: Hash)
    requires x !in have && (NoneWith(RefsOf(some, depth, cb), x) <==> NoneWith(RefsOf(front, depth, cb), x))
    ensures NoneWith(RefsOf(some + OneMissing(last, have), depth, cb), x) <==> NoneWith(RefsOf(front + [last], depth, cb), x)
  {
    RefsOfAppend(front, last, depth, cb);
    NoneAppend(RefsOf(front, depth, cb), RefBy(last, depth, cb), x);
    if last.Ref? && last.hash !in have {
      RefsOfAppend(some, last, depth, cb);
      NoneAppend(RefsOf(some, depth, cb), RefBy(last, depth, cb), x);
    } else {
      assert some + [] == some;
    }
  }

  /** The callback returns an error on the entry. */
  predicate FailsOn(react: Reaction, cb: nat, item: Item) {
    item.Value? && cb != 0 && !react(cb, item.v).ok
  }

  /** The entries up to the first one the callback fails on, or all of them. */
  predicate Handled(react: Reaction, cb: nat, items: seq<Item>, n: nat, ok: bool) {
    HandledSoFar(react, cb, items, n, ok) && (ok ==> n == |items|)
  }

  predicate HandledSoFar(react: Reaction, cb: nat, items: seq<Item>, n: nat, ok: bool) {
    && n <= |items| && (forall i :: 0 <= i < n - 1 ==> !FailsOn(react, cb, items[i]))
    && (n > 0 ==> (ok <==> !FailsOn(react, cb, items[n - 1]))) && (n == 0 ==> ok)
  }

  lemma {:induction false} HandledNext(react: Reaction, cb: nat, items: seq<Item>, n: nat, ok: bool)
    requires HandledSoFar(react, cb, items, n, true) && n < |items| && (ok <==> !FailsOn(react, cb, items[n]))
    ensures HandledSoFar(react, cb, items, n + 1, ok)
  {
  }

  /** The callback fails on some entry. */
  predicate Fails(react: Reaction, cb: nat, items: seq<Item>) {
    exists i :: 0 <= i < |items| && FailsOn(react, cb, items[i])
  }

  // ---------------------------------------------------------------------------
  // What is stored
  // ---------------------------------------------------------------------------

  datatype Codec = Codec(decode: Decoder, react: Reaction, emptyRoot: Hash)

  /** The callback that was run on each node the scheduler stored. */
  type Ran = map<Hash, nat>

  /** What a stored node leads to: its hash children, and the sub-tries its callback added. */
  function Kids(io: Codec, ran: Ran, h: Hash, blob: Bytes): set<Hash>
    requires io.decode(blob).Good?
  {
    var items := io.decode(blob).items;
    Refs(items) + if h in ran && h != ZERO then Added(io.react, ran[h], items, io.emptyRoot) else {}
  }

  /** Every stored node that decodes, except those in `failed`, has all it leads to stored. */
  ghost predicate Closed(io: Codec, store: map<Hash, Bytes>, failed: set<Hash>, ran: Ran) {
    forall h :: h in store && h !in failed && io.decode(store[h]).Good? ==> Kids(io, ran, h, store[h]) <= store.Keys
  }

  /** A node is listed after all it leads to, unless that was stored before. */
  ghost predicate ListedAfter(io: Codec, order: seq<Hash>, batch: map<Hash, Bytes>, have: set<Hash>, failed: set<Hash>, ran: Ran, i: nat)
    requires i < |order|
  {
    order[i] in batch && io.decode(batch[order[i]]).Good? &&
    (order[i] !in failed ==> Kids(io, ran, order[i], batch[order[i]]) <= have + Elements(order[..i]))
  }

  function Elements(order: seq<Hash>): set<Hash> {
    set h | h in order
  }

  ghost predicate Ordered(io: Codec, order: seq<Hash>, batch: map<Hash, Bytes>, have: set<Hash>, failed: set<Hash>, ran: Ran) {
    && (forall i {:trigger ListedAfter(io, order, batch, have, failed, ran, i)} :: 0 <= i < |order| ==> ListedAfter(io, order, batch, have, failed, ran, i))
    && (forall h :: h in batch <==> h in order)
    && (forall i, j :: 0 <= i < j < |order| ==> order[i] != order[j])
  }

  lemma {:induction false} OrderedAppend(io: Codec, order: seq<Hash>, batch: map<Hash, Bytes>, have: set<Hash>, failed: set<Hash>, ran: Ran, h: Hash, blob: Bytes, cb: nat)
    requires Ordered(io, order, batch, have, failed, ran) && h !in batch && io.decode(blob).Good?
    requires h !in failed ==> Kids(io, ran[h := cb], h, blob) <= have + batch.Keys
    ensures Ordered(io, order + [h], batch[h := blob], have, failed, ran[h := cb])
  {
    var o, b, ran' := order + [h], batch[h := blob], ran[h := cb];
    forall i | 0 <= i < |o| ensures ListedAfter(io, o, b, have, failed, ran', i) {
      if i < |order| {
        assert ListedAfter(io, order, batch, have, failed, ran, i);
        assert o[..i] == order[..i] && order[i] != h;
      } else {
        assert o[..i] == order;
      }
    }
  }

  /** A write of the next listed node keeps the database closed. */
  lemma {:induction false} PutClosed(io: Codec, order: seq<Hash>, batch: map<Hash, Bytes>, have: set<Hash>, failed: set<Hash>, ran: Ran, db: map<Hash, Bytes>, i: nat)
    requires Ordered(io, order, batch, have, failed, ran) && i < |order| && Closed(io, db, failed, ran)
    requires have <= db.Keys && forall j :: 0 <= j < i ==> order[j] in db
    ensures order[i] in batch && Closed(io, db[order[i] := batch[order[i]]], failed, ran)
  {
    assert ListedAfter(io, order, batch, have, failed, ran, i);
    var db' := db[order[i] := batch[order[i]]];
    forall h | h in db' && h !in failed && io.decode(db'[h]).Good? ensures Kids(io, ran, h, db'[h]) <= db'.Keys {
      if h != order[i] {
        assert Kids(io, ran, h, db[h]) <= db.Keys;
      } else {
        forall r | r in Kids(io, ran, h, db'[h]) ensures r in db' {
          if r !in have {
            var j :| 0 <= j < |order[..i]| && order[..i][j] == r;
            assert order[j] in db;
          }
        }
      }
    }
  }

  /** All that the node leads to is stored. */
  ghost predicate KidsStored(io: Codec, ran: Ran, store: map<Hash, Bytes>, h: Hash) {
    h in store && io.decode(store[h]).Good? ==> Kids(io, ran, h, store[h]) <= store.Keys
  }

  // ---------------------------------------------------------------------------
  // Callbacks
  // ---------------------------------------------------------------------------

  /** One of the sub-tries has this root and callback. */
  ghost predicate InSubs(subs: seq<Sub>, to: (Hash, nat)) {
    exists i :: 0 <= i < |subs| && subs[i].root == to.0 && subs[i].callback == to.1
  }

  /**
   What a node leads to under a callback: its hash children under the same callback, and the sub-tries
   that the callback adds on its values under the callbacks named for them.
   */
  ghost predicate LeadsTo(io: Codec, cb: nat, items: seq<Item>, to: (Hash, nat)) {
    (to.0 in Refs(items) && to.1 == cb) || InSubs(SubsOf(io.react, cb, items, io.emptyRoot), to)
  }

  ghost predicate Links(io: Codec, data: map<Hash, Bytes>, a: (Hash, nat), b: (Hash, nat)) {
    a.0 in data && io.decode(data[a.0]).Good? && LeadsTo(io, a.1, io.decode(data[a.0]).items, b)
  }

  ghost predicate Trail(io: Codec, data: map<Hash, Bytes>, path: seq<(Hash, nat)>) {
    |path| > 0 && forall i :: 0 < i < |path| ==> Links(io, data, path[i - 1], path[i])
  }

  /** One comes from `from` to `to`, each a hash with the callback it is met under. */
  ghost predicate Reach(io: Codec, data: map<Hash, Bytes>, from: (Hash, nat), to: (Hash, nat)) {
    exists path :: Trail(io, data, path) && path[0] == from && path[|path| - 1] == to
  }

  lemma {:induction false} ReachSelf(io: Codec, data: map<Hash, Bytes>, from: (Hash, nat))
    ensures Reach(io, data, from, from)
  {
    assert Trail(io, data, [from]);
  }

  lemma {:induction false} ReachOn(io: Codec, data: map<Hash, Bytes>, from: (Hash, nat), a: (Hash, nat), b: (Hash, nat))
    requires Reach(io, data, from, a) && Links(io, data, a, b)
    ensures Reach(io, data, from, b)
  {
    var path :| Trail(io, data, path) && path[0] == from && path[|path| - 1] == a;
    var longer := path + [b];
    forall i | 0 < i < |longer| ensures Links(io, data, longer[i - 1], longer[i]) {
      if i < |path| { assert longer[i - 1] == path[i - 1] && longer[i] == path[i]; }
    }
    assert Trail(io, data, longer);
  }

  /** The last step of a way. */
  lemma {:induction false} ReachBack(io: Codec, data: map<Hash, Bytes>, from: (Hash, nat), to: (Hash, nat)) returns (a: (Hash, nat))
    requires Reach(io, data, from, to) && to != from
    ensures Reach(io, data, from, a) && Links(io, data, a, to)
  {
    var path :| Trail(io, data, path) && path[0] == from && path[|path| - 1] == to;
    var front := path[..|path| - 1];
    a := path[|path| - 2];
    assert Trail(io, data, front) && front[0] == from && front[|front| - 1] == a;
  }

  /** No node that decodes is lost or changed. */
  ghost predicate Keeps(io: Codec, data: map<Hash, Bytes>, data': map<Hash, Bytes>) {
    forall h :: h in data && io.decode(data[h]).Good? ==> h in data' && data'[h] == data[h]
  }

  lemma {:induction false} ReachMore(io: Codec, data: map<Hash, Bytes>, data': map<Hash, Bytes>, from: (Hash, nat), to: (Hash, nat))
    requires Reach(io, data, from, to) && Keeps(io, data, data')
    ensures Reach(io, data', from, to)
  {
    var path :| Trail(io, data, path) && path[0] == from && path[|path| - 1] == to;
    forall i | 0 < i < |path| ensures Links(io, data', path[i - 1], path[i]) { assert Links(io, data, path[i - 1], path[i]); }
    assert Trail(io, data', path);
  }

  /** Nothing leads out of the store on the way from a root under its callback: all of its tries are there. */
  ghost predicate WholeUnder(io: Codec, store: map<Hash, Bytes>, from: (Hash, nat)) {
    forall to {:trigger Reach(io, store, from, to)} :: Reach(io, store, from, to) ==> to.0 in store
  }

  /** All that the node leads to under the callback is stored. */
  ghost predicate LedStored(io: Codec, store: map<Hash, Bytes>, a: (Hash, nat)) {
    forall b {:trigger Links(io, store, a, b)} :: Links(io, store, a, b) ==> b.0 in store
  }

  /** Nodes that the scheduler did not handle under this callback to the end: its callback failed, another one was run on it, or none. */
  predicate Odd(failed: set<Hash>, ran: Ran, a: (Hash, nat)) {
    a.0 in failed || a.0 == ZERO || !(a.0 in ran && ran[a.0] == a.1)
  }

  /** Every odd node met on the way has all it leads to stored. */
  ghost predicate OddStored(io: Codec, store: map<Hash, Bytes>, failed: set<Hash>, ran: Ran, from: (Hash, nat)) {
    forall a {:trigger Reach(io, store, from, a)} :: Reach(io, store, from, a) && Odd(failed, ran, a) ==> LedStored(io, store, a)
  }

  lemma {:induction false} RealIn(subs: seq<Sub>, empty: Hash, i: nat)
    requires i < |Real(subs, empty)|
    ensures Real(subs, empty)[i].root in SubRoots(subs, empty)
    decreases |subs|
  {
    var front, last := subs[..|subs| - 1], subs[|subs| - 1];
    if i < |Real(front, empty)| {
      RealIn(front, empty, i);
      var j :| 0 <= j < |front| && front[j].root != empty && front[j].root == Real(subs, empty)[i].root;
      assert subs[j] == front[j];
    }
  }

  lemma {:induction false} SubsAdded(react: Reaction, cb: nat, items: seq<Item>, empty: Hash, i: nat)
    requires i < |SubsOf(react, cb, items, empty)|
    ensures SubsOf(react, cb, items, empty)[i].root in Added(react, cb, items, empty)
    decreases |items|
  {
    var front, last := items[..|items| - 1], items[|items| - 1];
    var n := |SubsOf(react, cb, front, empty)|;
    if i < n { SubsAdded(react, cb, front, empty, i); } else { RealIn(react(cb, last.v).subs, empty, i - n); }
  }

  /** A node that is not odd has all it leads to stored. */
  lemma {:induction false} NotOddStored(io: Codec, store: map<Hash, Bytes>, failed: set<Hash>, ran: Ran, a: (Hash, nat))
    requires Closed(io, store, failed, ran) && !Odd(failed, ran, a)
    ensures LedStored(io, store, a)
  {
    forall b | Links(io, store, a, b) ensures b.0 in store {
      var items := io.decode(store[a.0]).items;
      assert Kids(io, ran, a.0, store[a.0]) <= store.Keys;
      var subs := SubsOf(io.react, a.1, items, io.emptyRoot);
      if InSubs(subs, b) {
        var i :| 0 <= i < |subs| && subs[i].root == b.0 && subs[i].callback == b.1;
        SubsAdded(io.react, a.1, items, io.emptyRoot, i);
      }
    }
  }

  /** The tries below a root under its callback are all there exactly when the odd nodes met on the way have all they lead to. */
  lemma {:induction false} WholeTrie(io: Codec, store: map<Hash, Bytes>, failed: set<Hash>, ran: Ran, from: (Hash, nat))
    requires Closed(io, store, failed, ran) && from.0 in store
    ensures WholeUnder(io, store, from) <==> OddStored(io, store, failed, ran, from)
  {
    if WholeUnder(io, store, from) {
      forall a, b | Reach(io, store, from, a) && Links(io, store, a, b) ensures b.0 in store { ReachOn(io, store, from, a, b); }
    }
    if OddStored(io, store, failed, ran, from) {
      forall to | Reach(io, store, from, to) ensures to.0 in store {
        if to != from {
          var a := ReachBack(io, store, from, to);
          if !Odd(failed, ran, a) { NotOddStored(io, store, failed, ran, a); }
          assert LedStored(io, store, a);
        }
      }
    }
  }

  // ---------------------------------------------------------------------------
  // What a received node needs
  // ---------------------------------------------------------------------------

  /** All hash children, and all sub-tries its callback added, are among what a received node needs. */
  ghost predicate Needed(io: Codec, r: Request, p: Hash, need: set<Hash>) {
    && r.data.Received? && io.decode(r.data.blob).Good?
    && Refs(io.decode(r.data.blob).items) <= need
    && (p != ZERO ==> Added(io.react, r.callback, io.decode(r.data.blob).items, io.emptyRoot) <= need)
  }

  ghost predicate Covered(io: Codec, s: Pending, needs: Needs, idle: set<Hash>) {
    && (forall p :: Arrived(s, p) && p !in idle ==> Needed(io, s[p], p, Need(needs, p)))
    && (forall p :: Arrived(s, p) ==> io.decode(s[p].data.blob).Good?)
  }

  lemma {:induction false} CoveredKept(io: Codec, s: Pending, s': Pending, needs: Needs, needs': Needs, idle: set<Hash>)
    requires Covered(io, s, needs, idle) && Kept(s, s') && Grown(needs, needs')
    ensures Covered(io, s', needs', idle)
  {
    forall p | Arrived(s', p) && p !in idle ensures Needed(io, s'[p], p, Need(needs', p)) {
      assert Arrived(s, p) && Needed(io, s[p], p, Need(needs, p)) && Need(needs, p) <= Need(needs', p);
    }
  }

  // ---------------------------------------------------------------------------
  // Small facts
  // ---------------------------------------------------------------------------

  /** Requests keep their data and only go by being stored with it, and nothing else is stored. */
  ghost predicate Stored(s: Pending, s': Pending, batch: map<Hash, Bytes>, batch': map<Hash, Bytes>) {
    && (forall x :: x in s ==> (x in s' && s'[x].data == s[x].data) || (x in batch' && s[x].data == Received(batch'[x])))
    && (forall x :: x in batch ==> x in batch' && batch'[x] == batch[x])
    && (forall x :: x in batch' && x !in batch ==> x in s && s[x].data == Received(batch'[x]))
    && s'.Keys <= s.Keys
  }

  lemma {:induction false} StoredTrans(s: Pending, s1: Pending, s2: Pending, b: map<Hash, Bytes>, b1: map<Hash, Bytes>, b2: map<Hash, Bytes>)
    requires Stored(s, s1, b, b1) && Stored(s1, s2, b1, b2)
    ensures Stored(s, s2, b, b2)
  {
    forall x | x in s ensures (x in s2 && s2[x].data == s[x].data) || (x in b2 && s[x].data == Received(b2[x])) {}
    forall x | x in b2 && x !in b ensures x in s && s[x].data == Received(b2[x]) {}
  }

  /** The data of the hash has arrived and is kept. */
  ghost predicate Delivered(s: Pending, batch: map<Hash, Bytes>, h: Hash, blob: Bytes) {
    (h in batch && batch[h] == blob) || (h in s && s[h].data == Received(blob))
  }

  ghost predicate Remembers(s: Pending, batch: map<Hash, Bytes>, s': Pending, batch': map<Hash, Bytes>) {
    && (forall h, blob {:trigger Delivered(s, batch, h, blob)} :: Delivered(s, batch, h, blob) ==> Delivered(s', batch', h, blob))
    && batch.Keys <= batch'.Keys
  }

  lemma {:induction false} RememberStored(s: Pending, s': Pending, b: map<Hash, Bytes>, b': map<Hash, Bytes>)
    requires Stored(s, s', b, b')
    ensures Remembers(s, b, s', b')
  {
  }

  lemma {:induction false} RememberKept(s: Pending, s': Pending, b: map<Hash, Bytes>)
    requires Kept(s, s')
    ensures Remembers(s, b, s', b)
  {
  }

  lemma {:induction false} RememberTrans(s: Pending, b: map<Hash, Bytes>, s1: Pending, b1: map<Hash, Bytes>, s2: Pending, b2: map<Hash, Bytes>)
    requires Remembers(s, b, s1, b1) && Remembers(s1, b1, s2, b2)
    ensures Remembers(s, b, s2, b2)
  {
    forall h, blob | Delivered(s, b, h, blob) ensures Delivered(s2, b2, h, blob) { assert Delivered(s1, b1, h, blob); }
  }

  ghost predicate AllDelivered(s: Pending, batch: map<Hash, Bytes>, results: seq<(Hash, Bytes)>, n: nat) {
    forall j :: 0 <= j < |results| && j < n ==> Delivered(s, batch, results[j].0, results[j].1)
  }

  lemma {:induction false} StillDelivered(s: Pending, b: map<Hash, Bytes>, s': Pending, b': map<Hash, Bytes>, results: seq<(Hash, Bytes)>, n: nat)
    requires AllDelivered(s, b, results, n) && Remembers(s, b, s', b')
    requires n < |results| && Delivered(s', b', results[n].0, results[n].1)
    ensures AllDelivered(s', b', results, n + 1)
  {
    forall j | 0 <= j < n ensures Delivered(s', b', results[j].0, results[j].1) {
      assert Delivered(s, b, results[j].0, results[j].1);
    }
  }

  lemma {:induction false} BatchGrew(b0: map<Hash, Bytes>, b: map<Hash, Bytes>, b': map<Hash, Bytes>)
    requires b0.Keys <= b.Keys < b'.Keys
    ensures b' != b0
  {
  }

  /** The hash children among the entries that are not stored, in order. */
  ghost function MissingOf(items: seq<Item>, have: set<Hash>): seq<Item> {
    if items == [] then []
    else MissingOf(items[..|items| - 1], have) + OneMissing(items[|items| - 1], have)
  }

  ghost function OneMissing(item: Item, have: set<Hash>): seq<Item> {
    if item.Ref? && item.hash !in have then [item] else []
  }

  lemma {:induction false} MissingAppend(items: seq<Item>, x: Item, have: set<Hash>)
    ensures MissingOf(items + [x], have) == MissingOf(items, have) + OneMissing(x, have)
  {
    assert (items + [x])[..|items|] == items;
  }

  ghost function Copies(h: Hash, n: nat): multiset<Hash> {
    multiset{h}[h := n]
  }

  lemma {:induction false} NoCopies(h: Hash)
    ensures Copies(h, 0) == multiset{}
  {
  }

  ghost predicate AllNeeded(needs: Needs, h: Hash, items: seq<Item>, n: nat) {
    forall j :: 0 <= j < |items| && j < n && items[j].Ref? ==> items[j].hash in Need(needs, h)
  }

  lemma {:induction false} AllNeededRefs(needs: Needs, h: Hash, items: seq<Item>)
    requires AllNeeded(needs, h, items, |items|)
    ensures Refs(items) <= Need(needs, h)
  {
  }

  lemma {:induction false} CoveredFinish(io: Codec, s: Pending, needs: Needs, idle: set<Hash>, h: Hash)
    requires Covered(io, s, needs, {h} + idle) && h in s
    ensures Covered(io, s - {h}, needs, idle)
  {
    forall p | Arrived(s - {h}, p) && p !in idle ensures Needed(io, (s - {h})[p], p, Need(needs, p)) { assert Arrived(s, p); }
  }

  ghost predicate Unstored(items: seq<Item>, have: set<Hash>) {
    forall j :: 0 <= j < |items| ==> items[j].Ref? && items[j].hash !in have
  }

  lemma {:induction false} AddedAppend(react: Reaction, cb: nat, items: seq<Item>, x: Item, empty: Hash)
    ensures Added(react, cb, items + [x], empty) == Added(react, cb, items, empty) + AddedBy(react, cb, x, empty)
  {
    assert (items + [x])[..|items|] == items;
  }

  lemma {:induction false} RefsAppend(items: seq<Item>, x: Item)
    ensures Refs(items + [x]) == Refs(items) + if x.Ref? then {x.hash} else {}
  {
    var all := items + [x];
    forall h | h in Refs(items) ensures h in Refs(all) {
      var i :| 0 <= i < |items| && items[i].Ref? && items[i].hash == h;
      assert all[i] == items[i];
    }
    assert all[|items|] == x;
  }

  // ---------------------------------------------------------------------------
  // The scheduler's state
  // ---------------------------------------------------------------------------

  /**
   `needs` records what each received node has to see stored first, `asked` every hash that was
   ever put on the queue, `failed` the nodes whose callback returned an error, `ran` the callback
   run on each stored node, and `junk` the hashes whose blobs did not decode at the start.
   */
  datatype State = State(
    db: map<Hash, Bytes>,
    batch: map<Hash, Bytes>,
    order: seq<Hash>,
    requests: Pending,
    queue: seq<(Hash, nat)>,
    needs: Needs,
    asked: set<Hash>,
    failed: set<Hash>,
    ran: Ran,
    junk: set<Hash>)

  ghost function Have(st: State): set<Hash> {
    st.db.Keys + st.batch.Keys
  }

  predicate Settled(io: Codec, st: State, h: Hash) {
    h in st.batch || (h in st.db && io.decode(st.db[h]).Good?)
  }

  ghost predicate Storage(io: Codec, st: State) {
    && Closed(io, st.db, st.failed, st.ran) && Ordered(io, st.order, st.batch, st.db.Keys, st.failed, st.ran)
    && forall h :: h in st.db && io.decode(st.db[h]).Bad? ==> h in st.junk
  }

  /** Nothing that is settled is pending, and nothing is asked for twice. */
  ghost predicate Asked(io: Codec, st: State) {
    && (forall h :: h in st.requests ==> !Settled(io, st, h) && h in st.asked)
    && (forall h :: h in st.asked ==> h in st.requests || Settled(io, st, h))
    && (forall i :: 0 <= i < |st.queue| ==> st.queue[i].0 in st.asked)
    && (forall i, j :: 0 <= i < j < |st.queue| ==> st.queue[i].0 != st.queue[j].0)
  }

  ghost predicate Deps(io: Codec, st: State, owed: multiset<Hash>, idle: set<Hash>) {
    Sound(st.requests, Have(st), st.needs, owed, idle + st.failed) && Covered(io, st.requests, st.needs, idle + st.failed)
  }

  /** The scheduler's invariant. */
  ghost predicate Healthy(io: Codec, st: State, owed: multiset<Hash>, idle: set<Hash>) {
    Deps(io, st, owed, idle) && Storage(io, st) && Asked(io, st)
  }

  /** A mention of a state, which opens what is said about it below. */
  predicate Look(st: State, n: int) {
    true
  }

  /** `Healthy`, opened only where the state is looked at. */
  ghost predicate Inv(io: Codec, st: State, owed: multiset<Hash>, idle: set<Hash>) {
    forall n {:trigger Look(st, n)} :: Look(st, n) ==> Healthy(io, st, owed, idle)
  }

  lemma {:induction false} OpenInv(io: Codec, st: State, owed: multiset<Hash>, idle: set<Hash>)
    requires Inv(io, st, owed, idle)
    ensures Healthy(io, st, owed, idle)
  {
    assert Look(st, 0);
  }

  /** What scheduling leaves alone. */
  ghost predicate Scheduled(st: State, st': State) {
    && Kept(st.requests, st'.requests) && Grown(st.needs, st'.needs)
    && st'.db == st.db && st'.batch == st.batch && st'.order == st.order
    && st'.failed == st.failed && st'.ran == st.ran && st'.junk == st.junk
  }

  lemma {:induction false} ScheduledTrans(st: State, st1: State, st2: State)
    requires Scheduled(st, st1) && Scheduled(st1, st2)
    ensures Scheduled(st, st2)
  {
  }

  /** Handling entries of `h` schedules the given roots and nothing else; only `h` needs more, and no other request gets stuck or freed. */
  ghost predicate Adding(st: State, st': State, h: Hash, roots: set<Hash>) {
    && Scheduled(st, st') && Frozen(st.requests, st'.requests, {h})
    && st'.requests.Keys <= st.requests.Keys + roots && (roots == {} ==> st'.requests == st.requests && st'.queue == st.queue)
    && (forall x :: x != h ==> Need(st'.needs, x) == Need(st.needs, x)) && Need(st'.needs, h) <= Need(st.needs, h) + roots + Have(st)
  }

  /** `Adding`, opened only where the old state is looked at. */
  ghost predicate Adds(st: State, st': State, h: Hash, roots: set<Hash>) {
    forall n {:trigger Look(st, n)} :: Look(st, n) ==> Adding(st, st', h, roots)
  }

  lemma {:induction false} OpenAdds(st: State, st': State, h: Hash, roots: set<Hash>)
    requires Adds(st, st', h, roots)
    ensures Adding(st, st', h, roots)
  {
    assert Look(st, 0);
  }

  lemma {:induction false} AddsNone(st: State, h: Hash)
    ensures Adds(st, st, h, {})
  {
  }

  lemma {:induction false} AddsTrans(st: State, st1: State, st2: State, h: Hash, roots: set<Hash>, roots': set<Hash>)
    requires Adds(st, st1, h, roots) && Adds(st1, st2, h, roots')
    ensures Adds(st, st2, h, roots + roots')
  {
    OpenAdds(st, st1, h, roots);
    OpenAdds(st1, st2, h, roots');
    ScheduledTrans(st, st1, st2);
    FrozenTrans(st.requests, st1.requests, st2.requests, {h}, {h});
  }

  /** Nothing new, or only the given hash, is asked for. */
  lemma {:induction false} NeedAdds(st: State, p: Hash, n: Hash, roots: set<Hash>)
    requires n in Have(st) + roots
    ensures Adds(st, AddNeed(st, p, n), p, roots)
  {
  }

  lemma {:induction false} RootAdds(st: State, q: Hash, r: Request, h: Hash)
    requires r.data.Absent?
    ensures Adds(st, Enqueue(st, q, r), h, {q})
  {
  }

  lemma {:induction false} AttachAdds(st: State, q: Hash, r: Request, p: Hash)
    requires r.data.Absent? && Arrived(st.requests, p)
    ensures Adds(st, AddNeed(Enqueue(st.(requests := Owe(st.requests, p, 1)), q, r), p, q), p, {q})
  {
    var st1 := st.(requests := Owe(st.requests, p, 1));
    assert Adds(st, st1, p, {q});
    RootAdds(st1, q, r, p);
    NeedAdds(Enqueue(st1, q, r), p, q, {q});
    AddsTrans(st, st1, Enqueue(st1, q, r), p, {q}, {q});
    AddsTrans(st, Enqueue(st1, q, r), AddNeed(Enqueue(st1, q, r), p, q), p, {q} + {q}, {q});
    assert {q} + {q} + {q} == {q};
  }

  /** Counting the children that are about to be scheduled. */
  lemma {:induction false} CountAdds(st: State, h: Hash, missing: seq<Item>)
    requires Arrived(st.requests, h) && (forall j :: 0 <= j < |missing| ==> missing[j].Ref?)
    ensures Adds(st, st.(requests := Owe(st.requests, h, |missing|)), h, Refs(missing))
  {
    if missing != [] { assert missing[0].hash in Refs(missing); }
    if missing == [] { assert Owe(st.requests, h, 0) == st.requests; }
  }

  lemma {:induction false} ScheduleAdds(st: State, q: Hash, r: Request, p: Hash)
    requires r.data.Absent?
    ensures Adds(st, AddNeed(Enqueue(st, q, r), p, q), p, {q})
  {
    RootAdds(st, q, r, p);
    NeedAdds(Enqueue(st, q, r), p, q, {q});
    AddsTrans(st, Enqueue(st, q, r), AddNeed(Enqueue(st, q, r), p, q), p, {q}, {q});
    assert {q} + {q} == {q};
  }

  /** The dependencies `h` counts grow exactly when one of the given roots is not settled; nothing is attached to the zero hash. */
  ghost predicate Growing(io: Codec, st: State, st': State, h: Hash, roots: set<Hash>) {
    h in st.requests ==>
      && h in st'.requests && st'.requests[h].deps >= st.requests[h].deps
      && (st'.requests[h].deps == st.requests[h].deps <==> h == ZERO || forall r :: r in roots ==> Settled(io, st, r))
  }

  /** `Growing`, opened only where the old state is looked at. */
  ghost predicate Grows(io: Codec, st: State, st': State, h: Hash, roots: set<Hash>) {
    forall n {:trigger Look(st, n)} :: Look(st, n) ==> Growing(io, st, st', h, roots)
  }

  lemma {:induction false} OpenGrows(io: Codec, st: State, st': State, h: Hash, roots: set<Hash>)
    requires Grows(io, st, st', h, roots)
    ensures Growing(io, st, st', h, roots)
  {
    assert Look(st, 0);
  }

  lemma {:induction false} GrowsNone(io: Codec, st: State, st': State, h: Hash, roots: set<Hash>)
    requires st'.requests == st.requests && forall r :: r in roots ==> Settled(io, st, r)
    ensures Grows(io, st, st', h, roots)
  {
  }

  lemma {:induction false} GrowsTrans(io: Codec, st: State, st1: State, st2: State, h: Hash, roots: set<Hash>, roots': set<Hash>)
    requires Adds(st, st1, h, roots) && Grows(io, st, st1, h, roots) && Grows(io, st1, st2, h, roots')
    ensures Grows(io, st, st2, h, roots + roots')
  {
    OpenAdds(st, st1, h, roots);
    OpenGrows(io, st, st1, h, roots);
    OpenGrows(io, st1, st2, h, roots');
    forall r ensures Settled(io, st1, r) <==> Settled(io, st, r) {}
  }

  lemma {:induction false} RootGrows(io: Codec, st: State, q: Hash, r: Request)
    ensures Grows(io, st, Enqueue(st, q, r), ZERO, {q})
  {
  }

  lemma {:induction false} AttachGrows(io: Codec, st: State, q: Hash, r: Request, p: Hash)
    requires p in st.requests && p != ZERO && !Settled(io, st, q)
    ensures Grows(io, st, AddNeed(Enqueue(st.(requests := Owe(st.requests, p, 1)), q, r), p, q), p, {q})
  {
    assert q in {q};
  }

  /**
   Every new request is one of `asks`, with the depth and callback of the first of them for its hash,
   and all of them are pending afterwards, unless they are settled.
   */
  ghost predicate Carrying(io: Codec, st: State, st': State, asks: seq<Sub>) {
    && (forall x {:trigger x in st'.requests} :: x in st'.requests && x !in st.requests ==>
          !Settled(io, st, x) && FirstOf(asks, x, st'.requests[x].depth, st'.requests[x].callback))
    && (forall i :: 0 <= i < |asks| ==> asks[i].root in st'.requests || Settled(io, st, asks[i].root))
  }

  /** `Carrying`, opened only where the old state is looked at. */
  ghost predicate Carries(io: Codec, st: State, st': State, asks: seq<Sub>) {
    forall n {:trigger Look(st, n)} :: Look(st, n) ==> Carrying(io, st, st', asks)
  }

  lemma {:induction false} OpenCarries(io: Codec, st: State, st': State, asks: seq<Sub>)
    requires Carries(io, st, st', asks)
    ensures Carrying(io, st, st', asks)
  {
    assert Look(st, 0);
  }

  lemma {:induction false} CarriesNone(io: Codec, st: State, st': State, asks: seq<Sub>)
    requires st'.requests.Keys == st.requests.Keys && forall i :: 0 <= i < |asks| ==> Settled(io, st, asks[i].root)
    ensures Carries(io, st, st', asks)
  {
    forall x | x in st'.requests ensures x in st.requests { assert x in st'.requests.Keys; }
  }

  lemma {:induction false} CarriesTrans(io: Codec, st: State, st1: State, st2: State, h: Hash, roots: set<Hash>, roots': set<Hash>, a: seq<Sub>, b: seq<Sub>)
    requires Adds(st, st1, h, roots) && Adds(st1, st2, h, roots') && Carries(io, st, st1, a) && Carries(io, st1, st2, b)
    ensures Carries(io, st, st2, a + b)
  {
    OpenAdds(st, st1, h, roots);
    OpenAdds(st1, st2, h, roots');
    OpenCarries(io, st, st1, a);
    OpenCarries(io, st1, st2, b);
    CarryingTrans(io, st, st1, st2, a, b);
  }

  lemma {:induction false} CarryingTrans(io: Codec, st: State, st1: State, st2: State, a: seq<Sub>, b: seq<Sub>)
    requires Scheduled(st, st1) && Scheduled(st1, st2) && Carrying(io, st, st1, a) && Carrying(io, st1, st2, b)
    ensures Carrying(io, st, st2, a + b)
  {
    forall x ensures Settled(io, st1, x) <==> Settled(io, st, x) {}
    forall x | x in st2.requests && x !in st.requests
      ensures !Settled(io, st, x) && FirstOf(a + b, x, st2.requests[x].depth, st2.requests[x].callback)
    {
      var d, c := st2.requests[x].depth, st2.requests[x].callback;
      if x in st1.requests { FirstLeft(a, b, x, d, c); } else { FirstRight(a, b, x, d, c); }
    }
    forall i | 0 <= i < |a + b| ensures (a + b)[i].root in st2.requests || Settled(io, st, (a + b)[i].root) {
      if i < |a| { assert (a + b)[i] == a[i]; } else { assert (a + b)[i] == b[i - |a|]; }
    }
  }

  lemma {:induction false} EnqueueCarries(io: Codec, st: State, q: Hash, r: Request)
    requires !Settled(io, st, q)
    ensures Carries(io, st, Enqueue(st, q, r), [Sub(q, r.depth, r.callback)])
  {
    var asks := [Sub(q, r.depth, r.callback)];
    assert asks[0].root == q;
  }

  lemma {:induction false} AttachCarries(io: Codec, st: State, q: Hash, r: Request, p: Hash)
    requires p in st.requests && !Settled(io, st, q)
    ensures Carries(io, st, AddNeed(Enqueue(st.(requests := Owe(st.requests, p, 1)), q, r), p, q), [Sub(q, r.depth, r.callback)])
  {
    var asks := [Sub(q, r.depth, r.callback)];
    assert asks[0].root == q;
  }

  lemma {:induction false} ScheduleCarries(io: Codec, st: State, q: Hash, r: Request, p: Hash)
    requires !Settled(io, st, q)
    ensures Carries(io, st, AddNeed(Enqueue(st, q, r), p, q), [Sub(q, r.depth, r.callback)])
  {
    var asks := [Sub(q, r.depth, r.callback)];
    assert asks[0].root == q;
  }

  lemma {:induction false} CountCarries(io: Codec, st: State, h: Hash, k: int)
    requires h in st.requests
    ensures Carries(io, st, st.(requests := Owe(st.requests, h, k)), [])
  {
    assert Owe(st.requests, h, k).Keys == st.requests.Keys;
    CarriesNone(io, st, st.(requests := Owe(st.requests, h, k)), []);
  }

  /**
   What storing requests keeps: what is still pending keeps its depth and callback, and each newly stored
   node was pending, with the callback that is recorded as run.
   */
  ghost predicate Ranged(st: State, st': State) {
    && (forall x :: x in st'.requests ==> x in st.requests && st'.requests[x].depth == st.requests[x].depth && st'.requests[x].callback == st.requests[x].callback)
    && (forall x :: x in st.ran ==> x in st'.ran)
    && (forall x :: x in st'.ran ==> (x in st.ran && st'.ran[x] == st.ran[x]) || (x in st.requests && st'.ran[x] == st.requests[x].callback))
    && (forall x :: x in st'.batch && x !in st.batch ==> x in st'.ran)
  }

  lemma {:induction false} RangedTrans(st: State, st1: State, st2: State)
    requires Ranged(st, st1) && Ranged(st1, st2)
    ensures Ranged(st, st2)
  {
    forall x | x in st2.ran ensures (x in st.ran && st2.ran[x] == st.ran[x]) || (x in st.requests && st2.ran[x] == st.requests[x].callback) {}
    forall x | x in st2.batch && x !in st.batch ensures x in st2.ran { if x in st1.batch { assert x in st1.ran; } }
  }

  /**
   What a delivery asks for: every new request is for one of the sub-tries the callback added or the hash
   children, with the depth and callback of the first of these for its hash, and all of them are now
   pending or there; what was pending keeps its depth and callback.
   */
  ghost predicate Requests(io: Codec, st: State, st': State, subs: seq<Sub>, refs: seq<Sub>) {
    && (forall x {:trigger x in st'.requests} :: x in st'.requests && x !in st.requests ==>
          st'.requests[x].data.Absent? && FirstOf(subs + refs, x, st'.requests[x].depth, st'.requests[x].callback))
    && (forall x :: x in st'.requests && x in st.requests ==> st'.requests[x].depth == st.requests[x].depth && st'.requests[x].callback == st.requests[x].callback)
    && (forall i :: 0 <= i < |subs| ==> subs[i].root in st'.requests || Settled(io, st', subs[i].root))
    && (forall i :: 0 <= i < |refs| ==> refs[i].root in st'.requests || refs[i].root in Have(st'))
  }

  /** Stored at once: nothing is asked for but sub-tries that nobody waits for. */
  lemma {:induction false} StoredRequests(io: Codec, st: State, st1: State, st': State, h: Hash, roots: set<Hash>, subs: seq<Sub>, items: seq<Item>, depth: nat, cb: nat)
    requires Adds(st, st1, h, roots) && Carries(io, st, st1, subs) && Stored(st1.requests, st'.requests, st1.batch, st'.batch) && Ranged(st1, st') && st'.db == st1.db
    requires Sorted(io, st1, h, items, []) && forall x :: x in st'.requests ==> !Settled(io, st', x)
    ensures Requests(io, st, st', subs, RefsOf(items, depth, cb))
  {
    OpenAdds(st, st1, h, roots);
    OpenCarries(io, st, st1, subs);
    OpenSorted(io, st1, h, items, []);
    var refs := RefsOf(items, depth, cb);
    forall x | x in st'.requests && x !in st.requests
      ensures st'.requests[x].data.Absent? && FirstOf(subs + refs, x, st'.requests[x].depth, st'.requests[x].callback)
    {
      StoredFirst(io, st, st1, st', subs, refs, x);
    }
    forall i | 0 <= i < |subs| ensures subs[i].root in st'.requests || Settled(io, st', subs[i].root) { StoredSub(io, st, st1, st', subs, i); }
    forall i | 0 <= i < |refs| ensures refs[i].root in Have(st') { NoneMissing(items, Have(st1), depth, cb, i); }
  }

  lemma {:induction false} StoredFirst(io: Codec, st: State, st1: State, st': State, subs: seq<Sub>, refs: seq<Sub>, x: Hash)
    requires Kept(st.requests, st1.requests) && Carrying(io, st, st1, subs) && Stored(st1.requests, st'.requests, st1.batch, st'.batch) && Ranged(st1, st')
    requires x in st'.requests && x !in st.requests && !Settled(io, st', x)
    ensures st'.requests[x].data.Absent? && FirstOf(subs + refs, x, st'.requests[x].depth, st'.requests[x].callback)
  {
    assert x in st1.requests && x !in st'.batch;
    FirstLeft(subs, refs, x, st'.requests[x].depth, st'.requests[x].callback);
  }

  lemma {:induction false} StoredSub(io: Codec, st: State, st1: State, st': State, subs: seq<Sub>, i: nat)
    requires Scheduled(st, st1) && Carrying(io, st, st1, subs) && Stored(st1.requests, st'.requests, st1.batch, st'.batch) && st'.db == st1.db && i < |subs|
    ensures subs[i].root in st'.requests || Settled(io, st', subs[i].root)
  {
    var x := subs[i].root;
    if x in st1.requests { assert x in st'.requests || x in st'.batch; }
  }

  lemma {:induction false} NoneMissing(items: seq<Item>, have: set<Hash>, depth: nat, cb: nat, i: nat)
    requires i < |RefsOf(items, depth, cb)| && MissingOf(items, have) == []
    ensures RefsOf(items, depth, cb)[i].root in have
    decreases |items|
  {
    var front, last := items[..|items| - 1], items[|items| - 1];
    if i < |RefsOf(front, depth, cb)| { NoneMissing(front, have, depth, cb, i); }
  }

  /** Held: the children that are not stored are asked for after the sub-tries. */
  lemma {:induction false} HeldRequests(io: Codec, st: State, st1: State, st': State, h: Hash, roots: set<Hash>, roots': set<Hash>, subs: seq<Sub>, items: seq<Item>, missing: seq<Item>, depth: nat, cb: nat)
    requires Adds(st, st1, h, roots) && Adds(st1, st', h, roots') && Carries(io, st, st1, subs) && Carries(io, st1, st', RefsOf(missing, depth, cb))
    requires Sorted(io, st1, h, items, missing)
    ensures Requests(io, st, st', subs, RefsOf(items, depth, cb))
  {
    OpenAdds(st, st1, h, roots);
    OpenAdds(st1, st', h, roots');
    OpenCarries(io, st, st1, subs);
    OpenCarries(io, st1, st', RefsOf(missing, depth, cb));
    OpenSorted(io, st1, h, items, missing);
    var refs, some := RefsOf(items, depth, cb), RefsOf(missing, depth, cb);
    forall x | x in st'.requests && x !in st.requests ensures FirstOf(subs + refs, x, st'.requests[x].depth, st'.requests[x].callback) {
      HeldFirst(io, st, st1, st', subs, items, some, depth, cb, x);
    }
    forall i | 0 <= i < |refs| ensures refs[i].root in st'.requests || refs[i].root in Have(st') {
      if refs[i].root !in Have(st1) { MissingIsThere(items, Have(st1), depth, cb, i); }
    }
  }

  lemma {:induction false} HeldFirst(io: Codec, st: State, st1: State, st': State, subs: seq<Sub>, items: seq<Item>, some: seq<Sub>, depth: nat, cb: nat, x: Hash)
    requires Scheduled(st, st1) && Scheduled(st1, st') && Carrying(io, st, st1, subs) && Carrying(io, st1, st', some)
    requires some == RefsOf(MissingOf(items, Have(st1)), depth, cb) && x in st'.requests && x !in st.requests
    ensures FirstOf(subs + RefsOf(items, depth, cb), x, st'.requests[x].depth, st'.requests[x].callback)
  {
    var d, c := st'.requests[x].depth, st'.requests[x].callback;
    if x in st1.requests {
      FirstLeft(subs, RefsOf(items, depth, cb), x, d, c);
    } else {
      assert Settled(io, st1, x) <==> Settled(io, st, x);
      FirstMissing(items, Have(st1), depth, cb, x, d, c);
      FirstRight(subs, RefsOf(items, depth, cb), x, d, c);
    }
  }

  lemma {:induction false} MissingIsThere(items: seq<Item>, have: set<Hash>, depth: nat, cb: nat, i: nat)
    requires i < |RefsOf(items, depth, cb)| && RefsOf(items, depth, cb)[i].root !in have
    ensures !NoneWith(RefsOf(MissingOf(items, have), depth, cb), RefsOf(items, depth, cb)[i].root)
  {
    NotMissed(items, have, depth, cb, RefsOf(items, depth, cb)[i].root);
  }

  /** What one delivery of `h` may bring: requests for the given hashes, and needs of `h`. */
  ghost predicate Local(st: State, st': State, h: Hash, more: set<Hash>) {
    && st'.requests.Keys <= st.requests.Keys + more
    && (forall x :: x != h ==> Need(st'.needs, x) == Need(st.needs, x)) && Need(st'.needs, h) <= more + Have(st)
  }

  /** Handling entries loses no data. */
  lemma {:induction false} AddsRemember(st: State, st': State, h: Hash, roots: set<Hash>)
    requires Adds(st, st', h, roots)
    ensures Remembers(st.requests, st.batch, st'.requests, st'.batch) && Frozen(st.requests, st'.requests, {h}) && st'.db == st.db && st'.batch == st.batch
    ensures st.requests.Keys <= st'.requests.Keys
  {
    OpenAdds(st, st', h, roots);
    RememberKept(st.requests, st'.requests, st.batch);
  }

  /** What storing or holding `h` does, after its entries were handled. */
  ghost predicate Settling(st: State, st': State, h: Hash, refs: set<Hash>) {
    && st'.requests.Keys <= st.requests.Keys + refs && st'.db == st.db
    && (forall x :: x != h ==> Need(st'.needs, x) == Need(st.needs, x)) && Need(st'.needs, h) <= Need(st.needs, h) + refs + Have(st)
    && forall x :: x in st'.batch && x !in st.batch ==> Arrived(st.requests, x)
  }

  lemma {:induction false} HeldSettling(io: Codec, st: State, st': State, h: Hash, items: seq<Item>, missing: seq<Item>)
    requires Adds(st, st', h, Refs(missing)) && Sorted(io, st, h, items, missing)
    ensures Settling(st, st', h, Refs(items) - Have(st))
  {
    OpenAdds(st, st', h, Refs(missing));
    OpenSorted(io, st, h, items, missing);
    MissingRefs(items, Have(st));
  }

  lemma {:induction false} StoredSettling(st: State, st': State, h: Hash, refs: set<Hash>)
    requires Stored(st.requests, st'.requests, st.batch, st'.batch) && st'.needs == st.needs && st'.db == st.db
    ensures Settling(st, st', h, refs)
  {
  }

  lemma {:induction false} SettlingLocal(io: Codec, st: State, st1: State, st': State, h: Hash, cb: nat, items: seq<Item>)
    requires Adds(st, st1, h, Added(io.react, cb, items, io.emptyRoot)) && Settling(st1, st', h, Refs(items) - Have(st1)) && Need(st.needs, h) == {}
    ensures Local(st, st', h, Leads(io, cb, items, Have(st))) && st'.batch.Keys <= st.batch.Keys + st.requests.Keys
  {
    OpenAdds(st, st1, h, Added(io.react, cb, items, io.emptyRoot));
  }

  /** What a node can make the scheduler ask for: hash children that are not there, and added sub-tries. */
  ghost function Leads(io: Codec, cb: nat, items: seq<Item>, have: set<Hash>): set<Hash> {
    (Refs(items) - have) + Added(io.react, cb, items, io.emptyRoot)
  }

  lemma {:induction false} AddedPart(react: Reaction, cb: nat, items: seq<Item>, n: nat, empty: Hash)
    requires n <= |items|
    ensures Added(react, cb, items[..n], empty) <= Added(react, cb, items, empty)
    decreases |items|
  {
    if n < |items| {
      AddedPart(react, cb, items[..|items| - 1], n, empty);
      assert items[..|items| - 1][..n] == items[..n];
    } else {
      assert items[..n] == items;
    }
  }

  lemma {:induction false} MissingRefs(items: seq<Item>, have: set<Hash>)
    ensures Refs(MissingOf(items, have)) <= Refs(items) - have
    decreases |items|
  {
    if items != [] {
      var front, last := items[..|items| - 1], items[|items| - 1];
      assert items == front + [last];
      MissingRefs(front, have);
      RefsAppend(front, last);
      RefsAppend(MissingOf(front, have), last);
      assert MissingOf(front, have) + [] == MissingOf(front, have);
    }
  }

  lemma {:induction false} StillArrived(st: State, st': State, h: Hash, roots: set<Hash>)
    requires Adds(st, st', h, roots) && Arrived(st.requests, h)
    ensures Arrived(st'.requests, h) && st'.requests[h].callback == st.requests[h].callback && st'.requests[h].data == st.requests[h].data
  {
    OpenAdds(st, st', h, roots);
  }

  /** The request `p` needs `n`. */
  ghost function AddNeed(st: State, p: Hash, n: Hash): State {
    st.(needs := st.needs[p := Need(st.needs, p) + {n}])
  }

  /** A request enters the queue once; later ones for the same hash only add parents. */
  ghost function Enqueue(st: State, q: Hash, r: Request): State {
    if q in st.requests then st.(requests := Schedule(st.requests, q, r))
    else st.(requests := Schedule(st.requests, q, r), queue := st.queue + [(q, r.depth)], asked := st.asked + {q})
  }

  lemma {:induction false} NeedInv(io: Codec, st: State, owed: multiset<Hash>, idle: set<Hash>, p: Hash, n: Hash)
    requires Inv(io, st, owed, idle) && n in Have(st)
    ensures Inv(io, AddNeed(st, p, n), owed, idle) && Scheduled(st, AddNeed(st, p, n))
  {
    OpenInv(io, st, owed, idle);
    NeedStored(st.requests, Have(st), st.needs, owed, idle + st.failed, p, n);
    CoveredKept(io, st.requests, st.requests, st.needs, AddNeed(st, p, n).needs, idle + st.failed);
  }

  lemma {:induction false} EnqueueAsked(io: Codec, st: State, q: Hash, r: Request)
    requires Asked(io, st) && !Settled(io, st, q)
    ensures Asked(io, Enqueue(st, q, r)) && (q !in st.requests ==> q !in st.asked)
  {
  }

  lemma {:induction false} RootInv(io: Codec, st: State, idle: set<Hash>, q: Hash, r: Request)
    requires Inv(io, st, multiset{}, idle) && !Settled(io, st, q) && r.parents == [] && r.deps == 0 && r.data.Absent?
    ensures Inv(io, Enqueue(st, q, r), multiset{}, idle)
  {
    OpenInv(io, st, multiset{}, idle);
    EnqueueAsked(io, st, q, r);
    ScheduleRoot(st.requests, Have(st), st.needs, multiset{}, idle + st.failed, q, r);
    CoveredKept(io, st.requests, Schedule(st.requests, q, r), st.needs, st.needs, idle + st.failed);
  }

  /** A dependency that was counted is scheduled. */
  lemma {:induction false} ScheduleInv(io: Codec, st: State, owed: multiset<Hash>, idle: set<Hash>, q: Hash, r: Request, p: Hash)
    requires Inv(io, st, owed, idle) && !Settled(io, st, q) && p in owed && r.parents == [p] && r.deps == 0 && r.data.Absent?
    ensures Inv(io, AddNeed(Enqueue(st, q, r), p, q), owed - multiset{p}, idle)
    ensures Scheduled(st, AddNeed(Enqueue(st, q, r), p, q))
  {
    OpenInv(io, st, owed, idle);
    var st' := AddNeed(Enqueue(st, q, r), p, q);
    EnqueueAsked(io, st, q, r);
    AskedNeed(io, Enqueue(st, q, r), p, q);
    ScheduleKept(st, q, r, p);
    ScheduleSound(st.requests, Have(st), st.needs, owed, idle + st.failed, q, r, p);
    CoveredKept(io, st.requests, st'.requests, st.needs, st'.needs, idle + st.failed);
  }

  lemma {:induction false} AskedNeed(io: Codec, st: State, p: Hash, n: Hash)
    requires Asked(io, st)
    ensures Asked(io, AddNeed(st, p, n))
  {
    forall h ensures Settled(io, AddNeed(st, p, n), h) <==> Settled(io, st, h) {}
  }

  lemma {:induction false} ScheduleKept(st: State, q: Hash, r: Request, p: Hash)
    requires r.data.Absent?
    ensures Scheduled(st, AddNeed(Enqueue(st, q, r), p, q))
  {
    KeptSchedule(st.requests, q, r);
  }

  lemma {:induction false} OweInv(io: Codec, st: State, owed: multiset<Hash>, idle: set<Hash>, p: Hash, k: int)
    requires Inv(io, st, owed, idle) && Arrived(st.requests, p) && owed[p] + k >= 0
    ensures Inv(io, st.(requests := Owe(st.requests, p, k)), owed[p := owed[p] + k],
                if st.requests[p].deps + k > 0 then idle else idle + {p})
    ensures Scheduled(st, st.(requests := Owe(st.requests, p, k)))
  {
    OpenInv(io, st, owed, idle);
    OweSound(st.requests, Have(st), st.needs, owed, idle + st.failed, p, k);
    CoveredKept(io, st.requests, Owe(st.requests, p, k), st.needs, st.needs, idle + st.failed);
    assert (idle + st.failed) + {p} == (idle + {p}) + st.failed;
    OweAsked(io, st, p, k);
  }

  /** Counting a dependency and scheduling what it waits for. */
  lemma {:induction false} AttachInv(io: Codec, st: State, idle: set<Hash>, q: Hash, r: Request, p: Hash)
    requires Inv(io, st, multiset{}, idle) && !Settled(io, st, q) && Arrived(st.requests, p) && r.parents == [p] && r.deps == 0 && r.data.Absent?
    ensures Inv(io, AddNeed(Enqueue(st.(requests := Owe(st.requests, p, 1)), q, r), p, q), multiset{}, idle)
  {
    var owed: multiset<Hash> := multiset{};
    OpenInv(io, st, owed, idle);
    DepsNonNegative(st.requests, owed, p);
    OweInv(io, st, owed, idle, p, 1);
    ScheduleInv(io, st.(requests := Owe(st.requests, p, 1)), owed[p := 1], idle, q, r, p);
    assert owed[p := 1] - multiset{p} == owed;
  }

  /** Counting the children that are about to be scheduled. */
  lemma {:induction false} CountInv(io: Codec, st: State, h: Hash, n: nat)
    requires Inv(io, st, multiset{}, {h}) && Arrived(st.requests, h)
    ensures Inv(io, st.(requests := Owe(st.requests, h, n)), Copies(h, n), {h}) && st.requests[h].deps >= 0
    ensures Scheduled(st, st.(requests := Owe(st.requests, h, n)))
  {
    OpenInv(io, st, multiset{}, {h});
    var owed: multiset<Hash> := multiset{};
    DepsNonNegative(st.requests, owed, h);
    OweInv(io, st, owed, {h}, h, n);
    assert owed[h := n] == Copies(h, n) && {h} + {h} == {h};
  }

  /** A request that is owed a payment is held for it. */
  lemma {:induction false} OwedHeld(io: Codec, st: State, owed: multiset<Hash>, p: Hash)
    requires Inv(io, st, owed, {}) && p in owed
    ensures Arrived(st.requests, p) && st.requests[p].deps >= owed[p] && io.decode(st.requests[p].data.blob).Good? && (p in st.failed || Needed(io, st.requests[p], p, Need(st.needs, p)))
  {
    OpenInv(io, st, owed, {});
    assert Arrived(st.requests, p);
    DepsNonNegative(st.requests, owed, p);
  }

  lemma {:induction false} PaidOne(owed: multiset<Hash>, p: Hash)
    ensures (owed + multiset{p})[p := (owed + multiset{p})[p] + -1] == owed
  {
  }

  /** One payment: the request stays held, or is ready with all it needs known. */
  lemma {:induction false} PayInv(io: Codec, st: State, owed: multiset<Hash>, p: Hash)
    requires Inv(io, st, owed + multiset{p}, {})
    ensures Arrived(st.requests, p) && st.requests[p].deps >= 1 && io.decode(st.requests[p].data.blob).Good?
    ensures Inv(io, st.(requests := Owe(st.requests, p, -1)), owed, if st.requests[p].deps == 1 then {p} else {})
    ensures p in st.failed || Needed(io, Owe(st.requests, p, -1)[p], p, Need(st.needs, p))
  {
    var all := owed + multiset{p};
    OwedHeld(io, st, all, p);
    OweInv(io, st, all, {}, p, -1);
    PaidOne(owed, p);
    assert {} + {p} == {p};
  }

  lemma {:induction false} OwedTail(owed: multiset<Hash>, parents: seq<Hash>, i: nat)
    requires i < |parents|
    ensures owed + multiset(parents[i..]) == owed + multiset(parents[i + 1..]) + multiset{parents[i]}
  {
    assert parents[i..] == [parents[i]] + parents[i + 1..];
  }

  lemma {:induction false} OwedEnds(owed: multiset<Hash>, parents: seq<Hash>)
    ensures owed + multiset(parents[0..]) == owed + multiset(parents) && owed + multiset(parents[|parents|..]) == owed
  {
    assert parents[0..] == parents && parents[|parents|..] == [];
  }

  lemma {:induction false} OweAsked(io: Codec, st: State, p: Hash, k: int)
    requires Asked(io, st) && p in st.requests
    ensures Asked(io, st.(requests := Owe(st.requests, p, k)))
  {
    assert Owe(st.requests, p, k).Keys == st.requests.Keys;
  }

  /** A ready request is stored. */
  ghost function Finish(st: State, h: Hash): State
    requires Arrived(st.requests, h)
  {
    st.(batch := st.batch[h := st.requests[h].data.blob], order := st.order + [h], requests := st.requests - {h}, ran := st.ran[h := st.requests[h].callback])
  }

  /** A request that may be stored has all it leads to among what it needs, unless its callback failed. */
  ghost predicate Ready(io: Codec, st: State, h: Hash) {
    Arrived(st.requests, h) && st.requests[h].deps == 0 && (h in st.failed || Needed(io, st.requests[h], h, Need(st.needs, h)))
  }

  lemma {:induction false} FinishInv(io: Codec, st: State, owed: multiset<Hash>, h: Hash)
    requires Inv(io, st, owed, {h}) && Ready(io, st, h) && io.decode(st.requests[h].data.blob).Good?
    ensures Inv(io, Finish(st, h), owed + multiset(st.requests[h].parents), {})
    ensures (h !in st.failed ==> Need(st.needs, h) <= Have(st)) && h !in st.batch
  {
    OpenInv(io, st, owed, {h});
    var st' := Finish(st, h);
    ReadyStored(st.requests, Have(st), st.needs, owed, {h} + st.failed, h);
    FinishStorage(io, st, h);
    FinishSound(st.requests, Have(st), st.needs, owed, st.failed, h);
    assert Have(st') == Have(st) + {h} && {} + st.failed == st.failed;
    CoveredFinish(io, st.requests, st.needs, st.failed, h);
    FinishAsked(io, st, h);
  }

  lemma {:induction false} FinishStorage(io: Codec, st: State, h: Hash)
    requires Storage(io, st) && Asked(io, st) && Ready(io, st, h) && io.decode(st.requests[h].data.blob).Good?
    requires Need(st.needs, h) <= Have(st)
    ensures Storage(io, Finish(st, h))
  {
    var blob, cb := st.requests[h].data.blob, st.requests[h].callback;
    assert !Settled(io, st, h);
    OrderedAppend(io, st.order, st.batch, st.db.Keys, st.failed, st.ran, h, blob, cb);
    assert Closed(io, st.db, st.failed, st.ran[h := cb]) by {
      forall x | x in st.db && x !in st.failed && io.decode(st.db[x]).Good? ensures Kids(io, st.ran[h := cb], x, st.db[x]) <= st.db.Keys {
        assert x != h && Kids(io, st.ran, x, st.db[x]) <= st.db.Keys;
      }
    }
  }

  lemma {:induction false} FinishAsked(io: Codec, st: State, h: Hash)
    requires Asked(io, st) && Arrived(st.requests, h)
    ensures Asked(io, Finish(st, h))
  {
    var st' := Finish(st, h);
    forall x | x in st'.requests ensures !Settled(io, st', x) { assert !Settled(io, st, x); }
  }

  /** What is left to fetch after looking at some entries of a received node: all else they refer to is needed and seen to. */
  ghost predicate Seen(io: Codec, st: State, h: Hash, items: seq<Item>, missing: seq<Item>) {
    && Arrived(st.requests, h)
    && missing == MissingOf(items, Have(st)) && Unstored(missing, Have(st)) && Refs(items) <= Need(st.needs, h) + Refs(missing)
    && (h != ZERO ==> Added(io.react, st.requests[h].callback, items, io.emptyRoot) <= Need(st.needs, h))
  }

  /** `Seen`, opened only where the state is looked at. */
  ghost predicate Sorted(io: Codec, st: State, h: Hash, items: seq<Item>, missing: seq<Item>) {
    forall n {:trigger Look(st, n)} :: Look(st, n) ==> Seen(io, st, h, items, missing)
  }

  lemma {:induction false} OpenSorted(io: Codec, st: State, h: Hash, items: seq<Item>, missing: seq<Item>)
    requires Sorted(io, st, h, items, missing)
    ensures Seen(io, st, h, items, missing)
  {
    assert Look(st, 0);
  }

  lemma {:induction false} SortedNone(io: Codec, st: State, h: Hash)
    requires Arrived(st.requests, h)
    ensures Sorted(io, st, h, [], [])
  {
    assert Refs([]) == {};
  }

  /** One more entry looked at. */
  lemma {:induction false} SortedStep(io: Codec, st: State, st': State, h: Hash, items: seq<Item>, x: Item, missing: seq<Item>)
    requires Sorted(io, st, h, items, missing) && Scheduled(st, st') && Arrived(st.requests, h)
    requires x.Ref? && x.hash in Have(st') ==> x.hash in Need(st'.needs, h)
    requires h != ZERO ==> AddedBy(io.react, st'.requests[h].callback, x, io.emptyRoot) <= Need(st'.needs, h)
    ensures Sorted(io, st', h, items + [x], missing + OneMissing(x, Have(st')))
  {
    OpenSorted(io, st, h, items, missing);
    assert Need(st.needs, h) <= Need(st'.needs, h) && Have(st') == Have(st);
    RefsAppend(items, x);
    RefsAppend(missing, x);
    assert missing + [] == missing;
    AddedAppend(io.react, st.requests[h].callback, items, x, io.emptyRoot);
    MissingAppend(items, x, Have(st));
  }

  /** A received node whose dependencies are counted and attached is an ordinary pending request. */
  lemma {:induction false} SettleIn(io: Codec, st: State, st': State, h: Hash, items: seq<Item>, missing: seq<Item>)
    requires Sorted(io, st, h, items, missing) && Arrived(st.requests, h) && io.decode(st.requests[h].data.blob) == Good(items) && Scheduled(st, st')
    requires Inv(io, st', multiset{}, {h}) && st'.requests[h].deps > 0 && Refs(missing) <= Need(st'.needs, h)
    ensures Inv(io, st', multiset{}, {})
  {
    OpenInv(io, st', multiset{}, {h});
    OpenSorted(io, st, h, items, missing);
    assert Need(st.needs, h) <= Need(st'.needs, h);
    assert Needed(io, st'.requests[h], h, Need(st'.needs, h));
  }

  ghost function Receive(st: State, h: Hash, blob: Bytes): State
    requires h in st.requests
  {
    st.(requests := st.requests[h := st.requests[h].(data := Received(blob))], needs := st.needs[h := {}])
  }

  lemma {:induction false} ReceiveInv(io: Codec, st: State, h: Hash, blob: Bytes)
    requires Inv(io, st, multiset{}, {}) && h in st.requests && st.requests[h].data.Absent? && io.decode(blob).Good?
    ensures Inv(io, Receive(st, h, blob), multiset{}, {h})
  {
    OpenInv(io, st, multiset{}, {});
    var st' := Receive(st, h, blob);
    ReceiveSound(st.requests, Have(st), st.needs, st.failed, h, blob);
    assert {} + st.failed == st.failed && st'.requests.Keys == st.requests.Keys;
    forall p | Arrived(st'.requests, p) && p !in {h} + st.failed ensures Needed(io, st'.requests[p], p, Need(st'.needs, p)) {
      assert Arrived(st.requests, p);
    }
  }

  // ---------------------------------------------------------------------------
  // Where callbacks come from
  // ---------------------------------------------------------------------------

  /** The blobs that have arrived. */
  function Arrivals(s: Pending): map<Hash, Bytes> {
    map h | h in s && s[h].data.Received? :: s[h].data.blob
  }

  /** All that is known of the nodes: stored, or arrived. */
  function Data(st: State): map<Hash, Bytes> {
    st.db + Arrivals(st.requests) + st.batch
  }

  /** Every request, and every node stored since the start, has a callback under which it is met on the way from the root. */
  ghost predicate Tracing(io: Codec, st: State, from: (Hash, nat), start: set<Hash>) {
    && (forall h :: h in st.requests ==> Reach(io, Data(st), from, (h, st.requests[h].callback)))
    && (forall h :: h in st.ran ==> Reach(io, Data(st), from, (h, st.ran[h])))
    && (forall h :: h in Store(st) ==> h in st.ran || h in start)
  }

  /** `Tracing`, opened only where the state is looked at. */
  ghost predicate Traced(io: Codec, st: State, from: (Hash, nat), start: set<Hash>) {
    forall n {:trigger Look(st, n)} :: Look(st, n) ==> Tracing(io, st, from, start)
  }

  lemma {:induction false} OpenTraced(io: Codec, st: State, from: (Hash, nat), start: set<Hash>)
    requires Traced(io, st, from, start)
    ensures Tracing(io, st, from, start)
  {
    assert Look(st, 0);
  }

  lemma {:induction false} TracedReceive(io: Codec, st: State, h: Hash, blob: Bytes, from: (Hash, nat), start: set<Hash>)
    requires Traced(io, st, from, start) && Asked(io, st) && h in st.requests && st.requests[h].data.Absent?
    ensures Traced(io, Receive(st, h, blob), from, start)
  {
    OpenTraced(io, st, from, start);
    var st' := Receive(st, h, blob);
    assert !Settled(io, st, h);
    ReceiveKeeps(io, st, h, blob);
    TracingKept(io, st, st', from, start);
  }

  lemma {:induction false} ReceiveKeeps(io: Codec, st: State, h: Hash, blob: Bytes)
    requires h in st.requests && st.requests[h].data.Absent? && !Settled(io, st, h)
    ensures Keeps(io, Data(st), Data(Receive(st, h, blob)))
  {
    var a, b := Arrivals(st.requests), Arrivals(Receive(st, h, blob).requests);
    forall x | x != h ensures (x in a <==> x in b) && (x in a ==> a[x] == b[x]) {}
    assert h !in a;
  }

  lemma {:induction false} TracingKept(io: Codec, st: State, st': State, from: (Hash, nat), start: set<Hash>)
    requires Tracing(io, st, from, start) && Keeps(io, Data(st), Data(st')) && st'.ran == st.ran && Store(st').Keys == Store(st).Keys
    requires forall x :: x in st'.requests ==> x in st.requests && st'.requests[x].callback == st.requests[x].callback
    ensures Tracing(io, st', from, start)
  {
    var d, d' := Data(st), Data(st');
    forall x | x in st'.requests ensures Reach(io, d', from, (x, st'.requests[x].callback)) {
      ReachMore(io, d, d', from, (x, st.requests[x].callback));
    }
    forall x | x in st'.ran ensures Reach(io, d', from, (x, st'.ran[x])) { ReachMore(io, d, d', from, (x, st.ran[x])); }
    forall x | x in Store(st') ensures x in st'.ran || x in start { assert x in Store(st).Keys; }
  }

  /** What is asked for on behalf of an arrived node is met from it. */
  ghost predicate LedFrom(io: Codec, st: State, h: Hash, asks: seq<Sub>) {
    Arrived(st.requests, h) && h !in st.batch && io.decode(st.requests[h].data.blob).Good? &&
    forall i :: 0 <= i < |asks| ==> LeadsTo(io, st.requests[h].callback, io.decode(st.requests[h].data.blob).items, (asks[i].root, asks[i].callback))
  }

  lemma {:induction false} TracedAdds(io: Codec, st: State, st': State, h: Hash, roots: set<Hash>, asks: seq<Sub>, from: (Hash, nat), start: set<Hash>)
    requires Traced(io, st, from, start) && Adds(st, st', h, roots) && Carries(io, st, st', asks) && LedFrom(io, st, h, asks)
    ensures Traced(io, st', from, start)
  {
    OpenTraced(io, st, from, start);
    OpenAdds(st, st', h, roots);
    OpenCarries(io, st, st', asks);
    ScheduledData(st, st');
    forall x | x in st'.requests && x !in st.requests ensures Reach(io, Data(st), from, (x, st'.requests[x].callback)) {
      AskedReach(io, st, h, asks, from, x, st'.requests[x].depth, st'.requests[x].callback);
    }
    AddsTracing(io, st, st', from, start);
  }

  lemma {:induction false} AddsTracing(io: Codec, st: State, st': State, from: (Hash, nat), start: set<Hash>)
    requires Tracing(io, st, from, start) && Scheduled(st, st') && Data(st') == Data(st)
    requires forall x :: x in st'.requests && x !in st.requests ==> Reach(io, Data(st), from, (x, st'.requests[x].callback))
    ensures Tracing(io, st', from, start)
  {
  }

  lemma {:induction false} ScheduledData(st: State, st': State)
    requires Scheduled(st, st')
    ensures Data(st') == Data(st)
  {
    assert Arrivals(st'.requests) == Arrivals(st.requests);
  }

  lemma {:induction false} AskedReach(io: Codec, st: State, h: Hash, asks: seq<Sub>, from: (Hash, nat), x: Hash, depth: nat, cb: nat)
    requires LedFrom(io, st, h, asks) && FirstOf(asks, x, depth, cb) && Reach(io, Data(st), from, (h, st.requests[h].callback))
    ensures Reach(io, Data(st), from, (x, cb))
  {
    var i :| 0 <= i < |asks| && asks[i] == Sub(x, depth, cb);
    ReachOn(io, Data(st), from, (h, st.requests[h].callback), (x, cb));
  }

  lemma {:induction false} TracedStored(io: Codec, st: State, st': State, from: (Hash, nat), start: set<Hash>)
    requires Traced(io, st, from, start) && Ranged(st, st') && Stored(st.requests, st'.requests, st.batch, st'.batch) && st'.db == st.db
    ensures Traced(io, st', from, start)
  {
    OpenTraced(io, st, from, start);
    StoredData(st, st');
    StoredTracing(io, st, st', from, start);
  }

  lemma {:induction false} StoredTracing(io: Codec, st: State, st': State, from: (Hash, nat), start: set<Hash>)
    requires Tracing(io, st, from, start) && Ranged(st, st') && st'.db == st.db && Data(st') == Data(st)
    ensures Tracing(io, st', from, start)
  {
    forall h | h in st'.requests ensures Reach(io, Data(st), from, (h, st'.requests[h].callback)) { assert h in st.requests; }
    forall h | h in st'.ran ensures Reach(io, Data(st), from, (h, st'.ran[h])) {}
    forall h | h in Store(st') ensures h in st'.ran || h in start {
      if h in st.db || h in st.batch { assert h in Store(st); }
    }
  }

  lemma {:induction false} StoredData(st: State, st': State)
    requires Stored(st.requests, st'.requests, st.batch, st'.batch) && st'.db == st.db
    ensures Data(st') == Data(st)
  {
    forall x ensures (x in Data(st') <==> x in Data(st)) && (x in Data(st) ==> Data(st')[x] == Data(st)[x]) {
      assert x in st.requests || x !in st.requests;
    }
  }

  /** Nothing that matters changes. */
  lemma {:induction false} TracedSame(io: Codec, st: State, st': State, from: (Hash, nat), start: set<Hash>)
    requires Traced(io, st, from, start) && st'.requests == st.requests && st'.ran == st.ran && Store(st').Keys == Store(st).Keys && Keeps(io, Data(st), Data(st'))
    ensures Traced(io, st', from, start)
  {
    OpenTraced(io, st, from, start);
    TracingKept(io, st, st', from, start);
  }

  // ---------------------------------------------------------------------------
  // Writing out and completion
  // ---------------------------------------------------------------------------

  /** Everything stored, in memory or on disk. */
  function Store(st: State): map<Hash, Bytes> {
    st.db + st.batch
  }

  lemma {:induction false} StoreClosed(io: Codec, st: State)
    requires Storage(io, st)
    ensures Closed(io, Store(st), st.failed, st.ran)
    ensures forall h :: h in Store(st) && io.decode(Store(st)[h]).Bad? ==> h in st.junk
  {
    var store := Store(st);
    forall h | h in store && h in st.batch
      ensures io.decode(store[h]).Good? && (h !in st.failed ==> Kids(io, st.ran, h, store[h]) <= store.Keys)
    {
      var i :| 0 <= i < |st.order| && st.order[i] == h;
      assert ListedAfter(io, st.order, st.batch, st.db.Keys, st.failed, st.ran, i);
    }
    forall h | h in store && h !in st.batch && h !in st.failed && io.decode(store[h]).Good? ensures Kids(io, st.ran, h, store[h]) <= store.Keys {
      assert Kids(io, st.ran, h, st.db[h]) <= st.db.Keys;
    }
  }

  /** No stored node leads out of the store exactly when none of those whose callback failed does. */
  lemma {:induction false} ClosedExactly(io: Codec, st: State)
    requires Inv(io, st, multiset{}, {})
    ensures Closed(io, Store(st), {}, st.ran) <==> forall h :: h in st.failed ==> KidsStored(io, st.ran, Store(st), h)
  {
    OpenInv(io, st, multiset{}, {});
    StoreClosed(io, st);
    var store := Store(st);
    if forall h :: h in st.failed ==> KidsStored(io, st.ran, store, h) {
      forall h | h in store && io.decode(store[h]).Good? ensures Kids(io, st.ran, h, store[h]) <= store.Keys {
        if h in st.failed { assert KidsStored(io, st.ran, store, h); }
      }
    }
    if Closed(io, store, {}, st.ran) {
      forall h | h in st.failed ensures KidsStored(io, st.ran, store, h) {}
    }
  }

  /**
   Once the root is stored: all that it leads to under its callback, which hash children inherit, is
   stored exactly when every odd node met on the way has all it leads to stored.  What is stored
   decodes, unless a blob that does not decode was there at the start.
   */
  lemma {:induction false} Complete(io: Codec, st: State, from: (Hash, nat))
    requires Inv(io, st, multiset{}, {}) && Settled(io, st, from.0)
    ensures from.0 in Store(st) && io.decode(Store(st)[from.0]).Good?
    ensures WholeUnder(io, Store(st), from) <==> OddStored(io, Store(st), st.failed, st.ran, from)
    ensures forall h :: h in Store(st) ==> h in st.junk || io.decode(Store(st)[h]).Good?
  {
    OpenInv(io, st, multiset{}, {});
    StoreClosed(io, st);
    SettledDecodes(io, st, from.0);
    WholeTrie(io, Store(st), st.failed, st.ran, from);
  }

  /** No hash is met under two callbacks. */
  ghost predicate OneCallback(io: Codec, store: map<Hash, Bytes>, from: (Hash, nat)) {
    forall h, c, c' {:trigger Reach(io, store, from, (h, c)), Reach(io, store, from, (h, c'))} ::
      Reach(io, store, from, (h, c)) && Reach(io, store, from, (h, c')) ==> c == c'
  }

  /** What was there at the start, and the zero hash, have all they lead to stored, as far as they are met. */
  ghost predicate StartStored(io: Codec, store: map<Hash, Bytes>, start: set<Hash>, from: (Hash, nat)) {
    forall a {:trigger Reach(io, store, from, a)} :: Reach(io, store, from, a) && (a.0 in start || a.0 == ZERO) ==> LedStored(io, store, a)
  }

  /**
   A finished download is complete if no callback failed, no hash is met under two callbacks, and what
   was there at the start was complete.
   */
  lemma {:induction false} CompleteOnce(io: Codec, st: State, from: (Hash, nat), start: set<Hash>)
    requires Inv(io, st, multiset{}, {}) && Settled(io, st, from.0) && Tracing(io, st, from, start)
    requires st.requests == map[] && st.failed == {}
    requires OneCallback(io, Store(st), from) && StartStored(io, Store(st), start, from)
    ensures WholeUnder(io, Store(st), from)
  {
    Complete(io, st, from);
    assert Data(st) == Store(st);
    forall a | Reach(io, Store(st), from, a) && Odd(st.failed, st.ran, a) ensures LedStored(io, Store(st), a) {
      if a.0 in st.ran {
        assert Reach(io, Store(st), from, (a.0, st.ran[a.0]));
        assert a == (a.0, a.1);
      }
    }
  }

  lemma {:induction false} SettledDecodes(io: Codec, st: State, h: Hash)
    requires Storage(io, st)
    ensures Settled(io, st, h) <==> h in Store(st) && io.decode(Store(st)[h]).Good?
  {
    if h in st.batch {
      var i :| 0 <= i < |st.order| && st.order[i] == h;
      assert ListedAfter(io, st.order, st.batch, st.db.Keys, st.failed, st.ran, i);
    }
  }

  /** A callback returned an error on a node that was just received. */
  ghost function Fail(st: State, h: Hash): State {
    st.(failed := st.failed + {h})
  }

  lemma {:induction false} FailInv(io: Codec, st: State, h: Hash)
    requires Inv(io, st, multiset{}, {h})
    ensures Inv(io, Fail(st, h), multiset{}, {})
  {
    OpenInv(io, st, multiset{}, {h});
    var st' := Fail(st, h);
    assert {h} + st.failed == {} + st'.failed && Have(st') == Have(st);
    forall i | 0 <= i < |st.order| ensures ListedAfter(io, st.order, st.batch, st.db.Keys, st'.failed, st.ran, i) {
      assert ListedAfter(io, st.order, st.batch, st.db.Keys, st.failed, st.ran, i);
    }
    forall x ensures Settled(io, st', x) <==> Settled(io, st, x) {}
  }

  /** The state after the memory batch is written out and emptied. */
  function Flushed(st: State): State {
    st.(db := Store(st), batch := map[], order := [])
  }

  lemma {:induction false} FlushInv(io: Codec, st: State)
    requires Inv(io, st, multiset{}, {})
    ensures Inv(io, Flushed(st), multiset{}, {})
    ensures forall h :: Settled(io, Flushed(st), h) <==> Settled(io, st, h)
  {
    OpenInv(io, st, multiset{}, {});
    var st' := Flushed(st);
    StoreClosed(io, st);
    assert Have(st') == Have(st);
    forall h ensures Settled(io, st', h) <==> Settled(io, st, h) { SettledDecodes(io, st, h); }
  }

  lemma {:induction false} StartInv(io: Codec, db: map<Hash, Bytes>, junk: set<Hash>)
    requires Closed(io, db, {}, map[]) && forall h :: h in db && io.decode(db[h]).Bad? ==> h in junk
    ensures Inv(io, State(db, map[], [], map[], [], map[], {}, {}, map[], junk), multiset{}, {})
  {
    EmptySound(db.Keys + {});
    var st := State(db, map[], [], map[], [], map[], {}, {}, map[], junk);
    assert Have(st) == db.Keys + {} && {} + st.failed == {};
  }

  /** The queue without one entry. */
  function Dequeue(st: State, k: nat): State
    requires k < |st.queue|
  {
    st.(queue := st.queue[..k] + st.queue[k + 1..])
  }

  lemma {:induction false} DequeueInv(io: Codec, st: State, k: nat)
    requires Inv(io, st, multiset{}, {}) && k < |st.queue|
    ensures Inv(io, Dequeue(st, k), multiset{}, {})
    ensures forall i, j :: 0 <= i < j < |st.queue| ==> st.queue[i] != st.queue[j]
    ensures forall j :: 0 <= j < |Dequeue(st, k).queue| ==> Dequeue(st, k).queue[j].0 != st.queue[k].0
  {
    OpenInv(io, st, multiset{}, {});
    var q := Dequeue(st, k).queue;
    forall j | 0 <= j < |q| ensures q[j] == st.queue[if j < k then j else j + 1] {}
  }

  lemma {:induction false} StorageOf(io: Codec, st: State)
    requires Inv(io, st, multiset{}, {})
    ensures Storage(io, st)
  {
    OpenInv(io, st, multiset{}, {});
  }

  /**
   While hash links go down: every pending request waits for data that was asked for and has not
   arrived, exactly when no pending request was left waiting for nothing.  Only a failed callback
   leaves such a request.
   */
  lemma {:induction false} Progress(io: Codec, st: State, rank: Hash -> nat)
    requires Inv(io, st, multiset{}, {}) && Falling(st.needs, rank)
    ensures (forall p :: p in st.requests ==> Moving(st.requests, p)) <==> (forall p :: !Stuck(st.requests, p))
    ensures forall p :: Stuck(st.requests, p) ==> p in st.failed
    ensures forall p :: p in st.requests ==> p in st.asked
  {
    OpenInv(io, st, multiset{}, {});
    MovingExactly(st.requests, Have(st), st.needs, {} + st.failed, rank);
  }

  // ---------------------------------------------------------------------------
  // Writing out, put by put
  // ---------------------------------------------------------------------------

  /** The database after the first `n` writes. */
  function PutFirst(db: map<Hash, Bytes>, batch: map<Hash, Bytes>, order: seq<Hash>, n: nat): map<Hash, Bytes>
    requires n <= |order| && forall i :: 0 <= i < |order| ==> order[i] in batch
  {
    if n == 0 then db else PutFirst(db, batch, order, n - 1)[order[n - 1] := batch[order[n - 1]]]
  }

  lemma {:induction false} PutFirstKeys(db: map<Hash, Bytes>, batch: map<Hash, Bytes>, order: seq<Hash>, n: nat, h: Hash)
    requires n <= |order| && forall i :: 0 <= i < |order| ==> order[i] in batch
    ensures h in PutFirst(db, batch, order, n) <==> h in db || h in order[..n]
    ensures h in order[..n] ==> PutFirst(db, batch, order, n)[h] == batch[h]
    ensures h in db && h !in order[..n] ==> PutFirst(db, batch, order, n)[h] == db[h]
    decreases n
  {
    if n > 0 {
      PutFirstKeys(db, batch, order, n - 1, h);
      assert order[..n] == order[..n - 1] + [order[n - 1]];
    }
  }

  /** All writes together move the batch to the database. */
  lemma {:induction false} PutAllKeys(db: map<Hash, Bytes>, batch: map<Hash, Bytes>, order: seq<Hash>)
    requires forall h :: h in batch <==> h in order
    ensures PutFirst(db, batch, order, |order|) == db + batch
  {
    forall h ensures (h in PutFirst(db, batch, order, |order|) <==> h in db + batch) &&
                     (h in db + batch ==> PutFirst(db, batch, order, |order|)[h] == (db + batch)[h])
    {
      PutFirstKeys(db, batch, order, |order|, h);
      assert order[..|order|] == order;
    }
  }

  /** After every write the database has no dangling reference. */
  lemma {:induction false} PutFirstClosed(io: Codec, order: seq<Hash>, batch: map<Hash, Bytes>, db: map<Hash, Bytes>, failed: set<Hash>, ran: Ran, n: nat)
    requires Ordered(io, order, batch, db.Keys, failed, ran) && Closed(io, db, failed, ran) && n <= |order|
    ensures (forall i :: 0 <= i < |order| ==> order[i] in batch) && Closed(io, PutFirst(db, batch, order, n), failed, ran)
    decreases n
  {
    forall i | 0 <= i < |order| ensures order[i] in batch { assert ListedAfter(io, order, batch, db.Keys, failed, ran, i); }
    if n > 0 {
      PutFirstClosed(io, order, batch, db, failed, ran, n - 1);
      var db1 := PutFirst(db, batch, order, n - 1);
      forall h | h in db ensures h in db1 { PutFirstKeys(db, batch, order, n - 1, h); }
      forall j | 0 <= j < n - 1 ensures order[j] in db1 {
        PutFirstKeys(db, batch, order, n - 1, order[j]);
        assert order[..n - 1][j] == order[j];
      }
      PutClosed(io, order, batch, db.Keys, failed, ran, db1, n - 1);
    }
  }

  /** The state after the first `n` writes: the batch is still in memory. */
  function Partly(st: State, n: nat): State
    requires n <= |st.order| && forall i :: 0 <= i < |st.order| ==> st.order[i] in st.batch
  {
    st.(db := PutFirst(st.db, st.batch, st.order, n))
  }

  lemma {:induction false} ListedInBatch(io: Codec, st: State)
    requires Storage(io, st)
    ensures forall i :: 0 <= i < |st.order| ==> st.order[i] in st.batch && io.decode(st.batch[st.order[i]]).Good?
  {
    forall i | 0 <= i < |st.order| ensures st.order[i] in st.batch && io.decode(st.batch[st.order[i]]).Good? {
      assert ListedAfter(io, st.order, st.batch, st.db.Keys, st.failed, st.ran, i);
    }
  }

  /** Any number of writes keeps the invariant. */
  lemma {:induction false} PartlyInv(io: Codec, st: State, n: nat)
    requires Inv(io, st, multiset{}, {}) && n <= |st.order|
    ensures (forall i :: 0 <= i < |st.order| ==> st.order[i] in st.batch) && Inv(io, Partly(st, n), multiset{}, {})
    ensures forall h :: Settled(io, Partly(st, n), h) <==> Settled(io, st, h)
  {
    OpenInv(io, st, multiset{}, {});
    ListedInBatch(io, st);
    var st' := Partly(st, n);
    PutFirstClosed(io, st.order, st.batch, st.db, st.failed, st.ran, n);
    forall h ensures h in st'.db <==> h in st.db || h in st.order[..n] { PutFirstKeys(st.db, st.batch, st.order, n, h); }
    assert Have(st') == Have(st);
    forall h | h in st'.db && h !in st.batch ensures h in st.db && st'.db[h] == st.db[h] { PutFirstKeys(st.db, st.batch, st.order, n, h); }
    PartlyStorage(io, st, n);
    forall h ensures Settled(io, st', h) <==> Settled(io, st, h) { PutFirstKeys(st.db, st.batch, st.order, n, h); }
  }

  lemma {:induction false} PartlyStorage(io: Codec, st: State, n: nat)
    requires Storage(io, st) && n <= |st.order| && forall i :: 0 <= i < |st.order| ==> st.order[i] in st.batch
    ensures Storage(io, Partly(st, n))
  {
    var st' := Partly(st, n);
    PutFirstClosed(io, st.order, st.batch, st.db, st.failed, st.ran, n);
    forall h | h in st.db ensures h in st'.db { PutFirstKeys(st.db, st.batch, st.order, n, h); }
    forall i | 0 <= i < |st.order| ensures ListedAfter(io, st.order, st.batch, st'.db.Keys, st.failed, st.ran, i) {
      assert ListedAfter(io, st.order, st.batch, st.db.Keys, st.failed, st.ran, i);
    }
    ListedInBatch(io, st);
    forall h | h in st.order[..n] ensures h in st'.db && io.decode(st'.db[h]).Good? {
      PutFirstKeys(st.db, st.batch, st.order, n, h);
      var i :| 0 <= i < n && st.order[..n][i] == h;
      assert st.order[i] == h;
    }
    forall h | h in st'.db && h !in st.order[..n] ensures h in st.db && st'.db[h] == st.db[h] {
      PutFirstKeys(st.db, st.batch, st.order, n, h);
    }
  }
}
