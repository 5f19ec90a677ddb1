/**
 The state-sync scheduler of trie/sync.go: it asks for missing trie nodes, accepts them in any
 order, and stores a node only when everything the node refers to is stored.
 */
module StateSync {
  import opened Encoding
  import opened SyncGraph
  import opened SyncState

  datatype Outcome = Committed | Held | NotRequested | AlreadyProcessed | BadData | CallbackFailed

  class Sync {
    var db: map<Hash, Bytes>
    var batch: map<Hash, Bytes>
    var order: seq<Hash>
    var requests: Pending
    var queue: seq<(Hash, nat)>
    ghost var needs: Needs
    ghost var asked: set<Hash>
    ghost var failed: set<Hash>
    ghost var ran: Ran
    ghost const junk: set<Hash>
    const root: Hash
    /** The callback of the root. */
    const first: nat
    const io: Codec
    /** What was in the database at the start. */
    ghost const start: set<Hash>

    ghost function St(): State
      reads this
    {
      State(db, batch, order, requests, queue, needs, asked, failed, ran, junk)
    }

    ghost predicate Known(h: Hash)
      reads this
    {
      h == io.emptyRoot || h in requests || Settled(io, St(), h)
    }

    ghost predicate Valid()
      reads this
    {
      Inv(io, St(), multiset{}, {}) && Known(root) && Traced(io, St(), (root, first), start)
    }

    // -------------------------------------------------------------------------
    // Scheduling
    // -------------------------------------------------------------------------

    method ScheduleRequest(h: Hash, r: Request)
      modifies this`requests, this`queue, this`asked
      ensures St() == Enqueue(old(St()), h, r)
    {
      if h in requests {
        requests := requests[h := requests[h].(parents := requests[h].parents + r.parents)];
      } else {
        queue := queue + [(h, r.depth)];
        requests := requests[h := r];
        asked := asked + {h};
      }
    }

    /** A sub-trie is asked for unless it is there, and its parent waits for it. */
    method AddSubTrie(h: Hash, depth: nat, parent: Hash, callback: nat, ghost idle: set<Hash>)
      requires Inv(io, St(), multiset{}, idle) && (parent == ZERO || Arrived(requests, parent))
      modifies this`requests, this`queue, this`asked, this`needs
      ensures Inv(io, St(), multiset{}, idle) && Adds(old(St()), St(), parent, {h} - {io.emptyRoot}) && Known(h)
      ensures Grows(io, old(St()), St(), parent, {h} - {io.emptyRoot})
      ensures Carries(io, old(St()), St(), Real([Sub(h, depth, callback)], io.emptyRoot))
      ensures h != io.emptyRoot && parent != ZERO ==> h in Need(needs, parent)
    {
      RealOne(Sub(h, depth, callback), io.emptyRoot);
      if h == io.emptyRoot {
        AddsNone(St(), parent);
        GrowsNone(io, St(), St(), parent, {});
        CarriesNone(io, St(), St(), []);
        return;
      }
      assert {h} - {io.emptyRoot} == {h};
      if h in batch || (h in db && io.decode(db[h]).Good?) {
        NeedAdds(St(), parent, h, {h});
        NeedInv(io, St(), multiset{}, idle, parent, h);
        needs := needs[parent := Need(needs, parent) + {h}];
        assert St() == AddNeed(old(St()), parent, h);
        GrowsNone(io, old(St()), St(), parent, {h});
        CarriesNone(io, old(St()), St(), [Sub(h, depth, callback)]);
        return;
      }
      if parent != ZERO {
        Attach(h, Request(Absent, [parent], depth, 0, callback), parent, idle);
      } else {
        var r := Request(Absent, [], depth, 0, callback);
        RootInv(io, St(), idle, h, r);
        RootAdds(St(), h, r, parent);
        RootGrows(io, St(), h, r);
        EnqueueCarries(io, St(), h, r);
        ScheduleRequest(h, r);
      }
    }

    method Attach(h: Hash, r: Request, parent: Hash, ghost idle: set<Hash>)
      requires Inv(io, St(), multiset{}, idle) && !Settled(io, St(), h) && Arrived(requests, parent)
      requires r.parents == [parent] && r.deps == 0 && r.data.Absent? && parent != ZERO
      modifies this`requests, this`queue, this`asked, this`needs
      ensures Grows(io, old(St()), St(), parent, {h}) && Carries(io, old(St()), St(), [Sub(h, r.depth, r.callback)])
      ensures Inv(io, St(), multiset{}, idle) && Adds(old(St()), St(), parent, {h}) && h in requests && h in Need(needs, parent)
    {
      AttachInv(io, St(), idle, h, r, parent);
      AttachAdds(St(), h, r, parent);
      AttachGrows(io, St(), h, r, parent);
      AttachCarries(io, St(), h, r, parent);
      requests := requests[parent := requests[parent].(deps := requests[parent].deps + 1)];
      ghost var st := St();
      assert st == old(St()).(requests := Owe(old(requests), parent, 1));
      ScheduleRequest(h, r);
      needs := needs[parent := Need(needs, parent) + {h}];
      assert St() == AddNeed(Enqueue(st, h, r), parent, h);
    }

    /** What the callback adds on one value. */
    method AddSubTries(h: Hash, subs: seq<Sub>)
      requires Inv(io, St(), multiset{}, {h}) && Arrived(requests, h)
      modifies this`requests, this`queue, this`asked, this`needs
      ensures Inv(io, St(), multiset{}, {h}) && Adds(old(St()), St(), h, SubRoots(subs, io.emptyRoot))
      ensures Grows(io, old(St()), St(), h, SubRoots(subs, io.emptyRoot)) && Carries(io, old(St()), St(), Real(subs, io.emptyRoot))
      ensures h != ZERO ==> SubRoots(subs, io.emptyRoot) <= Need(needs, h)
    {
      var i := 0;
      ghost var roots: set<Hash> := {};
      AddsNone(St(), h);
      GrowsNone(io, St(), St(), h, {});
      CarriesNone(io, St(), St(), []);
      ghost var asks: seq<Sub> := [];
      while i < |subs|
        invariant 0 <= i <= |subs| && roots == SubRoots(subs[..i], io.emptyRoot) && asks == Real(subs[..i], io.emptyRoot)
        invariant Carries(io, old(St()), St(), asks)
        invariant Inv(io, St(), multiset{}, {h}) && Arrived(requests, h) && Adds(old(St()), St(), h, roots) && Grows(io, old(St()), St(), h, roots)
        invariant h != ZERO ==> roots <= Need(needs, h)
      {
        SubRootsNext(subs, i, io.emptyRoot);
        assert subs[..i + 1] == subs[..i] + [subs[i]];
        RealAppend(subs[..i], subs[i], io.emptyRoot);
        roots, asks := AddNext(h, subs[i], old(St()), roots, asks);
        i := i + 1;
      }
      assert subs[..i] == subs;
    }

    method AddNext(h: Hash, sub: Sub, ghost st: State, ghost roots: set<Hash>, ghost asks: seq<Sub>) returns (ghost roots': set<Hash>, ghost asks': seq<Sub>)
      requires Inv(io, St(), multiset{}, {h}) && Arrived(requests, h) && Adds(st, St(), h, roots) && (h != ZERO ==> roots <= Need(needs, h))
      requires Grows(io, st, St(), h, roots) && Carries(io, st, St(), asks)
      modifies this`requests, this`queue, this`asked, this`needs
      ensures asks' == asks + Real([sub], io.emptyRoot) && Carries(io, st, St(), asks')
      ensures roots' == roots + ({sub.root} - {io.emptyRoot}) && Arrived(requests, h) && Grows(io, st, St(), h, roots')
      ensures Inv(io, St(), multiset{}, {h}) && Adds(st, St(), h, roots') && (h != ZERO ==> roots' <= Need(needs, h))
    {
      AddSubTrie(sub.root, sub.depth, h, sub.callback, {h});
      roots' := roots + ({sub.root} - {io.emptyRoot});
      AddsTrans(st, old(St()), St(), h, roots, {sub.root} - {io.emptyRoot});
      GrowsTrans(io, st, old(St()), St(), h, roots, {sub.root} - {io.emptyRoot});
      asks' := asks + Real([sub], io.emptyRoot);
      CarriesTrans(io, st, old(St()), St(), h, roots, {sub.root} - {io.emptyRoot}, asks, Real([sub], io.emptyRoot));
      OpenAdds(old(St()), St(), h, {sub.root} - {io.emptyRoot});
    }

    // -------------------------------------------------------------------------
    // Storing
    // -------------------------------------------------------------------------

    /**
     A request without open dependencies is stored, and so is every parent that thereby loses its
     last dependency.
     */
    method CommitRequest(h: Hash, ghost owed: multiset<Hash>)
      requires Inv(io, St(), owed, {h}) && Ready(io, St(), h) && io.decode(requests[h].data.blob).Good?
      modifies this`requests, this`batch, this`order, this`ran
      ensures Inv(io, St(), owed, {}) && h in batch && h !in requests && Frozen(old(requests), requests, {h})
      ensures requests.Keys < old(requests.Keys) && Stored(old(requests), requests, old(batch), batch) && h !in old(batch)
      ensures Ranged(old(St()), St())
      decreases requests.Keys, 0
    {
      var parents := Store(h, owed);
      ghost var s, b, st := requests, batch, St();
      PayParents(parents, owed);
      assert h !in requests;
      RangedTrans(old(St()), st, St());
      StoredTrans(old(requests), s, requests, old(batch), b, batch);
      FrozenTrans(old(requests), s, requests, {h}, {});
    }

    /** The ready request goes to the batch; its parents are to be paid. */
    method Store(h: Hash, ghost owed: multiset<Hash>) returns (parents: seq<Hash>)
      requires Inv(io, St(), owed, {h}) && Ready(io, St(), h) && io.decode(requests[h].data.blob).Good?
      modifies this`requests, this`batch, this`order, this`ran
      ensures Inv(io, St(), owed + multiset(parents), {}) && h in batch && h !in old(batch)
      ensures requests == old(requests) - {h} && h in old(requests)
      ensures Stored(old(requests), requests, old(batch), batch) && Frozen(old(requests), requests, {h}) && Ranged(old(St()), St())
    {
      var r := requests[h];
      FinishInv(io, St(), owed, h);
      batch := batch[h := r.data.blob];
      order := order + [h];
      requests := requests - {h};
      ran := ran[h := r.callback];
      assert St() == Finish(old(St()), h);
      parents := r.parents;
    }

    /** Every parent loses one dependency per time it is listed. */
    method PayParents(parents: seq<Hash>, ghost owed: multiset<Hash>)
      requires Inv(io, St(), owed + multiset(parents), {})
      modifies this`requests, this`batch, this`order, this`ran
      ensures Inv(io, St(), owed, {})
      ensures Stored(old(requests), requests, old(batch), batch) && Frozen(old(requests), requests, {}) && Ranged(old(St()), St())
      decreases requests.Keys, 2
    {
      var i := 0;
      OwedEnds(owed, parents);
      while i < |parents|
        invariant 0 <= i <= |parents|
        invariant Inv(io, St(), owed + multiset(parents[i..]), {})
        invariant Stored(old(requests), requests, old(batch), batch) && Frozen(old(requests), requests, {}) && Ranged(old(St()), St())
      {
        OwedTail(owed, parents, i);
        ghost var s, b, st := requests, batch, St();
        Pay(parents[i], owed + multiset(parents[i + 1..]));
        RangedTrans(old(St()), st, St());
        StoredTrans(old(requests), s, requests, old(batch), b, batch);
        FrozenTrans(old(requests), s, requests, {}, {});
        i := i + 1;
      }
    }

    method Pay(p: Hash, ghost owed: multiset<Hash>)
      requires Inv(io, St(), owed + multiset{p}, {})
      modifies this`requests, this`batch, this`order, this`ran
      ensures Inv(io, St(), owed, {})
      ensures Stored(old(requests), requests, old(batch), batch) && Frozen(old(requests), requests, {}) && Ranged(old(St()), St())
      decreases requests.Keys, 1
    {
      PayInv(io, St(), owed, p);
      assert !Stuck(requests, p);
      requests := requests[p := requests[p].(deps := requests[p].deps - 1)];
      assert St() == old(St()).(requests := Owe(old(requests), p, -1));
      assert requests.Keys == old(requests.Keys);
      if requests[p].deps == 0 {
        ghost var s, st := requests, St();
        CommitRequest(p, owed);
        RangedTrans(old(St()), st, St());
        StoredTrans(old(requests), s, requests, old(batch), old(batch), batch);
        FrozenTrans(old(requests), s, requests, {p}, {p});
      }
      FrozenAll(old(requests), requests, p);
    }

    // -------------------------------------------------------------------------
    // Receiving
    // -------------------------------------------------------------------------

    /** One entry of a received node: `fetch` if it is a hash child that is not stored; not `ok` if the callback fails on it. */
    method Child(h: Hash, item: Item) returns (fetch: bool, ok: bool)
      requires Inv(io, St(), multiset{}, {h}) && Arrived(requests, h)
      modifies this`requests, this`queue, this`asked, this`needs
      ensures Inv(io, St(), multiset{}, {h}) && Arrived(requests, h) && requests[h].callback == old(requests)[h].callback
      ensures Adds(old(St()), St(), h, AddedBy(io.react, old(requests)[h].callback, item, io.emptyRoot))
      ensures Grows(io, old(St()), St(), h, AddedBy(io.react, old(requests)[h].callback, item, io.emptyRoot))
      ensures Carries(io, old(St()), St(), SubsBy(io.react, old(requests)[h].callback, item, io.emptyRoot))
      ensures fetch <==> item.Ref? && item.hash !in Have(St())
      ensures item.Ref? && !fetch ==> item.hash in Need(needs, h)
      ensures h != ZERO ==> AddedBy(io.react, requests[h].callback, item, io.emptyRoot) <= Need(needs, h)
      ensures ok <==> !FailsOn(io.react, old(requests)[h].callback, item)
    {
      if item.Value? {
        if requests[h].callback != 0 {
          var reply := io.react(requests[h].callback, item.v);
          AddSubTries(h, reply.subs);
          StillArrived(old(St()), St(), h, SubRoots(reply.subs, io.emptyRoot));
          return false, reply.ok;
        }
        AddsNone(St(), h);
        GrowsNone(io, St(), St(), h, {});
        CarriesNone(io, St(), St(), []);
        return false, true;
      }
      if item.hash in batch || item.hash in db {
        NeedInv(io, St(), multiset{}, {h}, h, item.hash);
        NeedAdds(St(), h, item.hash, {});
        needs := needs[h := Need(needs, h) + {item.hash}];
        assert St() == AddNeed(old(St()), h, item.hash);
        GrowsNone(io, old(St()), St(), h, {});
        CarriesNone(io, old(St()), St(), []);
        return false, true;
      }
      AddsNone(St(), h);
      GrowsNone(io, St(), St(), h, {});
      CarriesNone(io, St(), St(), []);
      return true, true;
    }

    method NextChild(h: Hash, ghost seen: seq<Item>, item: Item, missing: seq<Item>) returns (missing': seq<Item>, ok: bool)
      requires Inv(io, St(), multiset{}, {h}) && Arrived(requests, h) && Sorted(io, St(), h, seen, missing)
      modifies this`requests, this`queue, this`asked, this`needs
      ensures Inv(io, St(), multiset{}, {h}) && Arrived(requests, h) && requests[h].callback == old(requests)[h].callback
      ensures Grows(io, old(St()), St(), h, AddedBy(io.react, old(requests)[h].callback, item, io.emptyRoot))
      ensures Carries(io, old(St()), St(), SubsBy(io.react, old(requests)[h].callback, item, io.emptyRoot))
      ensures Adds(old(St()), St(), h, AddedBy(io.react, old(requests)[h].callback, item, io.emptyRoot)) && Sorted(io, St(), h, seen + [item], missing')
      ensures ok <==> !FailsOn(io.react, old(requests)[h].callback, item)
    {
      var fetch;
      fetch, ok := Child(h, item);
      missing' := if fetch then missing + [item] else missing;
      OpenAdds(old(St()), St(), h, AddedBy(io.react, old(requests)[h].callback, item, io.emptyRoot));
      SortedStep(io, old(St()), St(), h, seen, item, missing);
      assert missing' == missing + OneMissing(item, Have(St()));
    }

    /**
     Collects the hash children that are not stored, and lets the callback see the values, up to
     the first one it fails on; `n` entries are looked at.
     */
    method Children(h: Hash, items: seq<Item>) returns (missing: seq<Item>, ok: bool, n: nat)
      requires Inv(io, St(), multiset{}, {h}) && Arrived(requests, h) && io.decode(requests[h].data.blob) == Good(items)
      modifies this`requests, this`queue, this`asked, this`needs
      ensures Inv(io, St(), multiset{}, {h}) && Arrived(requests, h)
      ensures Handled(io.react, old(requests)[h].callback, items, n, ok) && Sorted(io, St(), h, items[..n], missing)
      ensures Adds(old(St()), St(), h, Added(io.react, old(requests)[h].callback, items[..n], io.emptyRoot))
      ensures Grows(io, old(St()), St(), h, Added(io.react, old(requests)[h].callback, items[..n], io.emptyRoot))
      ensures Carries(io, old(St()), St(), SubsOf(io.react, old(requests)[h].callback, items[..n], io.emptyRoot))
    {
      ghost var cb := requests[h].callback;
      missing, ok, n := [], true, 0;
      SortedNone(io, St(), h);
      AddsNone(St(), h);
      GrowsNone(io, St(), St(), h, {});
      CarriesNone(io, St(), St(), []);
      ghost var roots: set<Hash>, asks: seq<Sub> := {}, [];
      while n < |items| && ok
        invariant 0 <= n <= |items| && HandledSoFar(io.react, cb, items, n, ok)
        invariant Inv(io, St(), multiset{}, {h}) && Arrived(requests, h) && requests[h].callback == cb
        invariant Sorted(io, St(), h, items[..n], missing)
        invariant roots == Added(io.react, cb, items[..n], io.emptyRoot) && Adds(old(St()), St(), h, roots) && Grows(io, old(St()), St(), h, roots)
        invariant asks == SubsOf(io.react, cb, items[..n], io.emptyRoot) && Carries(io, old(St()), St(), asks)
        decreases |items| - n
      {
        assert items[..n + 1] == items[..n] + [items[n]];
        missing, ok, roots, asks := HandleNext(h, items[..n], items[n], missing, old(St()), roots, asks);
        HandledNext(io.react, cb, items, n, ok);
        n := n + 1;
      }
    }

    method HandleNext(h: Hash, ghost seen: seq<Item>, item: Item, missing: seq<Item>, ghost st: State, ghost roots: set<Hash>, ghost asks: seq<Sub>)
      returns (missing': seq<Item>, ok: bool, ghost roots': set<Hash>, ghost asks': seq<Sub>)
      requires Inv(io, St(), multiset{}, {h}) && Arrived(requests, h) && Sorted(io, St(), h, seen, missing)
      requires roots == Added(io.react, requests[h].callback, seen, io.emptyRoot) && Adds(st, St(), h, roots) && Grows(io, st, St(), h, roots)
      requires asks == SubsOf(io.react, requests[h].callback, seen, io.emptyRoot) && Carries(io, st, St(), asks)
      modifies this`requests, this`queue, this`asked, this`needs
      ensures Inv(io, St(), multiset{}, {h}) && Arrived(requests, h) && requests[h].callback == old(requests)[h].callback
      ensures Sorted(io, St(), h, seen + [item], missing') && (ok <==> !FailsOn(io.react, old(requests)[h].callback, item))
      ensures roots' == Added(io.react, old(requests)[h].callback, seen + [item], io.emptyRoot) && Adds(st, St(), h, roots') && Grows(io, st, St(), h, roots')
      ensures asks' == SubsOf(io.react, old(requests)[h].callback, seen + [item], io.emptyRoot) && Carries(io, st, St(), asks')
    {
      ghost var cb, st0 := requests[h].callback, St();
      missing', ok := NextChild(h, seen, item, missing);
      AddedAppend(io.react, cb, seen, item, io.emptyRoot);
      AddsTrans(st, st0, St(), h, roots, AddedBy(io.react, cb, item, io.emptyRoot));
      GrowsTrans(io, st, st0, St(), h, roots, AddedBy(io.react, cb, item, io.emptyRoot));
      SubsAppend(io.react, cb, seen, item, io.emptyRoot);
      asks' := asks + SubsBy(io.react, cb, item, io.emptyRoot);
      CarriesTrans(io, st, st0, St(), h, roots, AddedBy(io.react, cb, item, io.emptyRoot), asks, SubsBy(io.react, cb, item, io.emptyRoot));
      roots' := roots + AddedBy(io.react, cb, item, io.emptyRoot);
    }

    /** Asks for the missing children of `h`, whose dependencies are counted already. */
    method ScheduleAll(h: Hash, missing: seq<Item>)
      requires Inv(io, St(), Copies(h, |missing|), {h}) && Unstored(missing, Have(St())) && Arrived(requests, h)
      modifies this`requests, this`queue, this`asked, this`needs
      ensures Inv(io, St(), multiset{}, {h}) && Adds(old(St()), St(), h, Refs(missing))
      ensures Arrived(requests, h) && requests[h].deps == old(requests[h].deps) && Refs(missing) <= Need(needs, h)
      ensures Carries(io, old(St()), St(), RefsOf(missing, old(requests)[h].depth, old(requests)[h].callback))
    {
      var i := 0;
      ghost var owed, roots: set<Hash> := Copies(h, |missing|), {};
      ghost var depth, cb, asks: seq<Sub> := requests[h].depth, requests[h].callback, [];
      AddsNone(St(), h);
      CarriesNone(io, St(), St(), []);
      while i < |missing|
        invariant 0 <= i <= |missing| && owed == Copies(h, |missing| - i) && roots == Refs(missing[..i])
        invariant Inv(io, St(), owed, {h}) && Adds(old(St()), St(), h, roots) && roots <= Need(needs, h)
        invariant Arrived(requests, h) && requests[h].deps == old(requests[h].deps) && requests[h].depth == depth && requests[h].callback == cb
        invariant asks == RefsOf(missing[..i], depth, cb) && Carries(io, old(St()), St(), asks)
      {
        assert missing[..i + 1] == missing[..i] + [missing[i]];
        RefsAppend(missing[..i], missing[i]);
        RefsOfAppend(missing[..i], missing[i], depth, cb);
        owed, roots, asks := ScheduleNext(h, missing[i], owed, |missing| - i, old(St()), roots, asks);
        i := i + 1;
      }
      assert missing[..i] == missing;
      NoCopies(h);
    }

    method ScheduleNext(h: Hash, item: Item, ghost owed: multiset<Hash>, ghost left: nat, ghost st: State, ghost roots: set<Hash>, ghost asks: seq<Sub>)
      returns (ghost owed': multiset<Hash>, ghost roots': set<Hash>, ghost asks': seq<Sub>)
      requires Inv(io, St(), owed, {h}) && left > 0 && owed == Copies(h, left) && item.Ref? && item.hash !in Have(St()) && Arrived(requests, h)
      requires Adds(st, St(), h, roots) && roots <= Need(needs, h) && Carries(io, st, St(), asks)
      modifies this`requests, this`queue, this`asked, this`needs
      ensures owed' == Copies(h, left - 1) && roots' == roots + {item.hash}
      ensures Inv(io, St(), owed', {h}) && Adds(st, St(), h, roots') && roots' <= Need(needs, h)
      ensures Arrived(requests, h) && requests[h].deps == old(requests[h].deps) && requests[h].depth == old(requests)[h].depth && requests[h].callback == old(requests)[h].callback
      ensures asks' == asks + RefBy(item, old(requests)[h].depth, old(requests)[h].callback) && Carries(io, st, St(), asks')
    {
      ghost var st0 := St();
      owed' := ScheduleOne(h, item, owed, left);
      roots' := roots + {item.hash};
      AddsTrans(st, st0, St(), h, roots, {item.hash});
      asks' := asks + RefBy(item, st0.requests[h].depth, st0.requests[h].callback);
      CarriesTrans(io, st, st0, St(), h, roots, {item.hash}, asks, RefBy(item, st0.requests[h].depth, st0.requests[h].callback));
      OpenAdds(st0, St(), h, {item.hash});
    }

    method ScheduleOne(h: Hash, item: Item, ghost owed: multiset<Hash>, ghost left: nat) returns (ghost owed': multiset<Hash>)
      requires Inv(io, St(), owed, {h}) && left > 0 && owed == Copies(h, left) && item.Ref? && item.hash !in Have(St()) && Arrived(requests, h)
      modifies this`requests, this`queue, this`asked, this`needs
      ensures owed' == Copies(h, left - 1) && Inv(io, St(), owed', {h}) && Adds(old(St()), St(), h, {item.hash})
      ensures Arrived(requests, h) && requests[h].deps == old(requests[h].deps) && item.hash in Need(needs, h)
      ensures Carries(io, old(St()), St(), RefBy(item, old(requests)[h].depth, old(requests)[h].callback))
    {
      var r := Request(Absent, [h], requests[h].depth + item.step, 0, requests[h].callback);
      ScheduleInv(io, St(), owed, {h}, item.hash, r, h);
      ScheduleAdds(St(), item.hash, r, h);
      ScheduleCarries(io, St(), item.hash, r, h);
      owed' := owed - multiset{h};
      assert owed' == Copies(h, left - 1);
      ScheduleRequest(item.hash, r);
      needs := needs[h := Need(needs, h) + {item.hash}];
      assert St() == AddNeed(Enqueue(old(St()), item.hash, r), h, item.hash);
    }

    /** One delivered node. */
    method ProcessOne(h: Hash, blob: Bytes) returns (res: Outcome)
      requires Valid()
      modifies this
      ensures Valid() && db == old(db)
      ensures res == NotRequested <==> h !in old(requests)
      ensures res == AlreadyProcessed <==> Arrived(old(requests), h)
      ensures res == BadData <==> h in old(requests) && old(requests)[h].data.Absent? && io.decode(blob).Bad?
      ensures res == CallbackFailed <==> h in old(requests) && old(requests)[h].data.Absent? && io.decode(blob).Good? &&
                                         Fails(io.react, old(requests)[h].callback, io.decode(blob).items)
      ensures res in {NotRequested, AlreadyProcessed, BadData} ==> St() == old(St())
      ensures res in {Committed, Held} ==> Delivered(requests, batch, h, blob)
      ensures res in {Committed, Held} ==> Local(old(St()), St(), h, Leads(io, old(requests)[h].callback, io.decode(blob).items, old(Have(St()))))
      ensures res in {Committed, Held} ==> Asks(io, old(St()), St(), h, io.decode(blob).items)
      ensures res == CallbackFailed ==> LeftBehind(io, old(St()), St(), h, blob)
      ensures failed == if res == CallbackFailed then old(failed) + {h} else old(failed)
      ensures Remembers(old(requests), old(batch), requests, batch) && batch.Keys <= old(batch).Keys + old(requests).Keys
      ensures Frozen(old(requests), requests, if res == CallbackFailed then {h} else {})
      ensures if res == Committed then old(batch).Keys < batch.Keys else batch == old(batch)
    {
      if h !in requests { return NotRequested; }
      if requests[h].data.Received? { return AlreadyProcessed; }
      if io.decode(blob).Bad? { return BadData; }
      ReceiveInv(io, St(), h, blob);
      ReceiveTraced(io, St(), h, blob, (root, first), start);
      NoDeps(io, St(), h);
      requests := requests[h := requests[h].(data := Received(blob))];
      needs := needs[h := {}];
      assert St() == Receive(old(St()), h, blob);
      ghost var s := requests;
      assert Remembers(old(requests), batch, s, batch) && Delivered(s, batch, h, blob) && Frozen(old(requests), s, {h});
      res := Receipt(h, io.decode(blob).items);
      if res != CallbackFailed { AsksReceived(io, old(St()), St(), h, blob); }
      RememberTrans(old(requests), old(batch), s, old(batch), requests, batch);
      FrozenTrans(old(requests), s, requests, {h}, {h});
      if res != CallbackFailed { FrozenAll(old(requests), requests, h); }
    }

    method Receipt(h: Hash, items: seq<Item>) returns (res: Outcome)
      requires Inv(io, St(), multiset{}, {h}) && Arrived(requests, h) && io.decode(requests[h].data.blob) == Good(items) && Known(root)
      requires Need(needs, h) == {} && requests[h].deps == 0 && Traced(io, St(), (root, first), start)
      modifies this
      ensures Valid() && db == old(db) && res in {Committed, Held, CallbackFailed}
      ensures res == CallbackFailed <==> Fails(io.react, old(requests)[h].callback, items)
      ensures res == CallbackFailed ==> Abandoned(io, old(St()), St(), h, items)
      ensures res in {Committed, Held} ==> Local(old(St()), St(), h, Leads(io, old(requests)[h].callback, items, old(Have(St())))) && !Stuck(requests, h)
      ensures res in {Committed, Held} ==> Asks(io, old(St()), St(), h, items)
      ensures failed == if res == CallbackFailed then old(failed) + {h} else old(failed)
      ensures Remembers(old(requests), old(batch), requests, batch) && batch.Keys <= old(batch).Keys + old(requests).Keys
      ensures Frozen(old(requests), requests, {h})
      ensures if res == Committed then old(batch).Keys < batch.Keys else batch == old(batch)
    {
      ghost var st, cb := St(), requests[h].callback;
      var missing, ok, n := Children(h, items);
      ghost var st1 := St();
      AddsRemember(st, st1, h, Added(io.react, cb, items[..n], io.emptyRoot));
      HandledFails(io.react, cb, items, n, ok);
      ChildrenTraced(io, st, st1, h, items, n, (root, first), start);
      if !ok {
        FailInv(io, St(), h);
        Abandon(io, st, st1, h, items, n, missing);
        FailTraced(io, St(), h, (root, first), start);
        failed := failed + {h};
        return CallbackFailed;
      }
      assert items[..n] == items;
      res := Proceed(h, items, missing, st);
      RememberTrans(st.requests, st.batch, st1.requests, st1.batch, requests, batch);
      FrozenTrans(st.requests, st1.requests, requests, {h}, {h});
    }

    /** All entries of a node were handled. */
    method Proceed(h: Hash, items: seq<Item>, missing: seq<Item>, ghost st: State) returns (res: Outcome)
      requires Inv(io, St(), multiset{}, {h}) && Known(root) && Sorted(io, St(), h, items, missing) && Traced(io, St(), (root, first), start)
      requires Arrived(st.requests, h) && Need(st.needs, h) == {} && io.decode(st.requests[h].data.blob) == Good(items)
      requires Adds(st, St(), h, Added(io.react, st.requests[h].callback, items, io.emptyRoot))
      requires Carries(io, st, St(), SubsOf(io.react, st.requests[h].callback, items, io.emptyRoot))
      modifies this
      ensures Valid() && db == old(db) && res in {Committed, Held} && failed == old(failed) && !Stuck(requests, h)
      ensures Asks(io, st, St(), h, items) && Local(st, St(), h, Leads(io, st.requests[h].callback, items, Have(st)))
      ensures batch.Keys <= st.batch.Keys + st.requests.Keys
      ensures Remembers(old(requests), old(batch), requests, batch) && Frozen(old(requests), requests, {h})
      ensures if res == Committed then old(batch).Keys < batch.Keys else batch == old(batch)
    {
      ghost var st1 := St();
      StillArrived(st, st1, h, Added(io.react, st.requests[h].callback, items, io.emptyRoot));
      res := Settle(h, items, missing);
      SettleAsks(io, st, st1, St(), h, items, missing);
      SettlingLocal(io, st, st1, St(), h, st.requests[h].callback, items);
    }

    /** A node all of whose entries were handled is stored if it waits for nothing, and else held. */
    method Settle(h: Hash, items: seq<Item>, missing: seq<Item>) returns (res: Outcome)
      requires Inv(io, St(), multiset{}, {h}) && Arrived(requests, h) && io.decode(requests[h].data.blob) == Good(items) && Known(root)
      requires Sorted(io, St(), h, items, missing) && Traced(io, St(), (root, first), start)
      modifies this
      ensures Valid() && res in {Committed, Held} && failed == old(failed)
      ensures Settling(old(St()), St(), h, Refs(items) - old(Have(St()))) && !Stuck(requests, h) && SettledAs(io, old(St()), St(), h, missing)
      ensures Remembers(old(requests), old(batch), requests, batch) && Frozen(old(requests), requests, {h})
      ensures if res == Committed then old(batch).Keys < batch.Keys else batch == old(batch)
    {
      ghost var st := St();
      if missing == [] && requests[h].deps == 0 {
        OpenSorted(io, St(), h, items, missing);
        CommitRequest(h, multiset{});
        TracedStored(io, st, St(), (root, first), start);
        RememberStored(st.requests, requests, st.batch, batch);
        StoredSettling(st, St(), h, Refs(items) - Have(st));
        return Committed;
      }
      HoldTraced(io, st, h, items, missing);
      Hold(h, items, missing);
      TracedAdds(io, st, St(), h, Refs(missing), RefsOf(missing, st.requests[h].depth, st.requests[h].callback), (root, first), start);
      AddsRemember(st, St(), h, Refs(missing));
      HeldSettling(io, st, St(), h, items, missing);
      return Held;
    }

    method Hold(h: Hash, ghost items: seq<Item>, missing: seq<Item>)
      requires Inv(io, St(), multiset{}, {h}) && Arrived(requests, h) && Sorted(io, St(), h, items, missing) && (missing != [] || requests[h].deps != 0)
      requires io.decode(requests[h].data.blob) == Good(items)
      modifies this`requests, this`queue, this`asked, this`needs
      ensures Inv(io, St(), multiset{}, {}) && Adds(old(St()), St(), h, Refs(missing)) && Arrived(requests, h) && requests[h].deps > 0
      ensures Carries(io, old(St()), St(), RefsOf(missing, old(requests)[h].depth, old(requests)[h].callback))
    {
      CountInv(io, St(), h, |missing|);
      OpenSorted(io, St(), h, items, missing);
      CountAdds(St(), h, missing);
      CountCarries(io, St(), h, |missing|);
      requests := requests[h := requests[h].(deps := requests[h].deps + |missing|)];
      ghost var st1 := St();
      assert st1 == old(St()).(requests := Owe(old(requests), h, |missing|));
      ScheduleAll(h, missing);
      AddsTrans(old(St()), st1, St(), h, Refs(missing), Refs(missing));
      ghost var asks := RefsOf(missing, st1.requests[h].depth, st1.requests[h].callback);
      CarriesTrans(io, old(St()), st1, St(), h, Refs(missing), Refs(missing), [], asks);
      assert [] + asks == asks;
      assert Refs(missing) + Refs(missing) == Refs(missing);
      OpenAdds(old(St()), St(), h, Refs(missing));
      SettleIn(io, old(St()), St(), h, items, missing);
    }

    /**
     Delivers a list of nodes and stops at the first one that is refused.  All before it are kept,
     and `committed` tells whether anything was stored.
     */
    method Process(results: seq<(Hash, Bytes)>) returns (committed: bool, index: nat, res: Outcome)
      requires Valid()
      modifies this
      ensures Valid() && db == old(db) && (committed <==> batch != old(batch))
      ensures if res == Held then index == 0 else res in {NotRequested, AlreadyProcessed, BadData, CallbackFailed} && index < |results|
      ensures res == NotRequested ==> results[index].0 !in requests
      ensures res == AlreadyProcessed ==> Arrived(requests, results[index].0)
      ensures res == BadData ==> io.decode(results[index].1).Bad?
      ensures res == CallbackFailed ==> io.decode(results[index].1).Good? && Arrived(requests, results[index].0) && results[index].0 in failed
      ensures failed == if res == CallbackFailed then old(failed) + {results[index].0} else old(failed)
      ensures AllDelivered(requests, batch, results, if res == Held then |results| else if res == CallbackFailed then index + 1 else index)
      ensures Frozen(old(requests), requests, if res == CallbackFailed then {results[index].0} else {})
    {
      committed, index, res := false, 0, Held;
      var i := 0;
      while i < |results|
        invariant 0 <= i <= |results| && index == 0 && res == Held && Valid() && db == old(db) && AllDelivered(requests, batch, results, i)
        invariant old(batch).Keys <= batch.Keys && (committed <==> batch != old(batch))
        invariant failed == old(failed) && Frozen(old(requests), requests, {})
      {
        ghost var s, b := requests, batch;
        var r := ProcessOne(results[i].0, results[i].1);
        FrozenTrans(old(requests), s, requests, if r == CallbackFailed then {results[i].0} else {}, if r == CallbackFailed then {results[i].0} else {});
        if r == NotRequested || r == AlreadyProcessed || r == BadData { return committed, i, r; }
        StillDelivered(s, b, requests, batch, results, i);
        if r == CallbackFailed { return committed, i, r; }
        if r == Committed {
          BatchGrew(old(batch), b, batch);
          committed := true;
        }
        i := i + 1;
      }
    }

    // -------------------------------------------------------------------------
    // Asking and writing out
    // -------------------------------------------------------------------------

    /** A sync starts with its root asked for, unless it is there, over a database without dangling references. */
    constructor (root: Hash, db: map<Hash, Bytes>, io: Codec, callback: nat)
      requires Closed(io, db, {}, map[])
      ensures Valid() && this.db == db && this.root == root && this.first == callback && this.io == io && start == db.Keys && ran == map[] && batch == map[] && order == [] && failed == {} && needs == map[]
      ensures junk == set h | h in db && io.decode(db[h]).Bad?
      ensures if root == io.emptyRoot || (root in db && io.decode(db[root]).Good?) then requests == map[] && queue == []
              else requests == map[root := Request(Absent, [], 0, 0, callback)] && queue == [(root, 0)]
    {
      this.db, this.root, this.first, this.io, this.start := db, root, callback, io, db.Keys;
      batch, order, requests, queue, needs, asked := map[], [], map[], [], map[], {};
      failed, ran, junk := {}, map[], set h | h in db && io.decode(db[h]).Bad?;
      new;
      StartInv(io, db, junk);
      if root != io.emptyRoot && !(root in db && io.decode(db[root]).Good?) {
        RootInv(io, St(), {}, root, Request(Absent, [], 0, 0, callback));
        ScheduleRequest(root, Request(Absent, [], 0, 0, callback));
      }
      StartTraced(io, St(), (root, callback), start);
    }

    /** Takes up to `max` entries off the queue, all of them for 0, deepest first; each hash is handed out once. */
    method Missing(max: nat) returns (hashes: seq<Hash>, ghost taken: seq<(Hash, nat)>)
      requires Valid()
      modifies this`queue
      ensures Valid() && |hashes| == if max == 0 || old(|queue|) < max then old(|queue|) else max
      ensures Handed(old(queue), queue, taken) && Apart(queue, taken) && Firsts(taken, hashes)
    {
      hashes, taken := [], [];
      while |queue| > 0 && (max == 0 || |hashes| < max)
        invariant Valid() && |queue| + |hashes| == old(|queue|) && (max != 0 ==> |hashes| <= max)
        invariant Handed(old(queue), queue, taken) && Apart(queue, taken) && Firsts(taken, hashes)
        decreases |queue|
      {
        ghost var q := queue;
        var x := Pop();
        HandOne(old(queue), q, queue, taken, x);
        hashes, taken := hashes + [x.0], taken + [x];
      }
    }

    /** Takes an entry of greatest depth off the queue. */
    method Pop() returns (x: (Hash, nat))
      requires Valid() && |queue| > 0
      modifies this`queue
      ensures Valid() && Popped(old(queue), queue, x) && forall y :: y in queue ==> y.0 != x.0
    {
      var k, i := 0, 1;
      while i < |queue|
        invariant 0 <= k < i <= |queue|
        invariant forall j :: 0 <= j < i ==> queue[j].1 <= queue[k].1
      {
        if queue[i].1 > queue[k].1 { k := i; }
        i := i + 1;
      }
      x := queue[k];
      DequeueInv(io, St(), k);
      PopOne(queue, k);
      TracedSame(io, St(), Dequeue(St(), k), (root, first), start);
      queue := queue[..k] + queue[k + 1..];
      assert St() == Dequeue(old(St()), k);
    }

    /**
     Writes the memory batch out in completion order.  A write that fails ends it; what was written
     stays, the batch stays in memory, and the scheduler goes on.  After any number of writes no
     node of the database leads out of it, except to what a failed callback left behind.
     */
    method Commit(failing: nat) returns (written: nat, ok: bool)
      requires Valid()
      modifies this`db, this`batch, this`order
      ensures Valid() && Closed(io, db, failed, ran)
      ensures ok <==> failing >= old(|order|)
      ensures written == if ok then old(|order|) else failing
      ensures forall i :: 0 <= i < old(|order|) ==> old(order)[i] in old(batch)
      ensures db == PutFirst(old(db), old(batch), old(order), written)
      ensures ok ==> db == old(db) + old(batch) && batch == map[] && order == []
      ensures !ok ==> batch == old(batch) && order == old(order)
    {
      FlushInv(io, St());
      StorageOf(io, St());
      ListedInBatch(io, St());
      written := PutAll(failing);
      PartlyInv(io, old(St()), written);
      PartlyTraced(io, old(St()), written, (root, first), start);
      StorageOf(io, Partly(old(St()), written));
      assert St() == Partly(old(St()), written);
      if written < |order| { return written, false; }
      FlushTraced(io, old(St()), (root, first), start);
      batch, order := map[], [];
      assert St() == Flushed(old(St()));
      ok := true;
    }

    method PutAll(failing: nat) returns (written: nat)
      requires Storage(io, St()) && forall i :: 0 <= i < |order| ==> order[i] in batch
      modifies this`db
      ensures written == if failing < |order| then failing else |order|
      ensures db == PutFirst(old(db), batch, order, written) && (written == |order| ==> db == old(db) + batch)
    {
      written := 0;
      while written < |order|
        invariant 0 <= written <= |order| && written <= failing
        invariant db == PutFirst(old(db), batch, order, written)
      {
        if written == failing { return; }
        db := db[order[written] := batch[order[written]]];
        written := written + 1;
      }
      PutAllKeys(old(db), batch, order);
    }

    /**
     Nothing pending: the root is stored, and so is every hash that one comes to from it under its
     callback, which hash children inherit while sub-tries have their own, exactly when the odd nodes
     met on the way have all they lead to stored.  None are left to look at if no callback failed, no
     hash is met under two callbacks, and what was there at the start was complete.  What is stored
     decodes, unless a blob that does not decode was there at the start.
     */
    lemma Done()
      requires Valid() && requests == map[] && root != io.emptyRoot
      ensures root in SyncState.Store(St()) && io.decode(SyncState.Store(St())[root]).Good?
      ensures WholeUnder(io, SyncState.Store(St()), (root, first)) <==> OddStored(io, SyncState.Store(St()), failed, ran, (root, first))
      ensures failed == {} && OneCallback(io, SyncState.Store(St()), (root, first)) && StartStored(io, SyncState.Store(St()), start, (root, first)) ==>
                WholeUnder(io, SyncState.Store(St()), (root, first))
      ensures forall h :: h in SyncState.Store(St()) ==> h in junk || io.decode(SyncState.Store(St())[h]).Good?
    {
      Complete(io, St(), (root, first));
      OpenTraced(io, St(), (root, first), start);
      if failed == {} && OneCallback(io, SyncState.Store(St()), (root, first)) && StartStored(io, SyncState.Store(St()), start, (root, first)) {
        CompleteOnce(io, St(), (root, first), start);
      }
    }
  }

  /**
   The callback failed on one of the entries: up to it, only the sub-tries it added are asked for,
   and the node waits for them.  The node is stuck exactly when none of them is still unsettled.
   */
  ghost predicate Abandoned(io: Codec, st: State, st': State, h: Hash, items: seq<Item>)
    requires h in st.requests
  {
    exists n: nat {:trigger Handled(io.react, st.requests[h].callback, items, n, false)} ::
      Handled(io.react, st.requests[h].callback, items, n, false) &&
      Adding(Fail(st, h), st', h, Added(io.react, st.requests[h].callback, items[..n], io.emptyRoot)) &&
      (h != ZERO ==> Added(io.react, st.requests[h].callback, items[..n], io.emptyRoot) <= Need(st'.needs, h)) &&
      Carrying(io, st, st', SubsOf(io.react, st.requests[h].callback, items[..n], io.emptyRoot)) &&
      (Stuck(st'.requests, h) <==> h == ZERO || forall r :: r in Added(io.react, st.requests[h].callback, items[..n], io.emptyRoot) ==> Settled(io, st, r))
  }

  /** The node's data is kept, but its children are not asked for. */
  ghost predicate LeftBehind(io: Codec, st: State, st': State, h: Hash, blob: Bytes) {
    h in st.requests && io.decode(blob).Good? && Abandoned(io, Receive(st, h, blob), st', h, io.decode(blob).items)
  }

  lemma {:induction false} Abandon(io: Codec, st: State, st1: State, h: Hash, items: seq<Item>, n: nat, missing: seq<Item>)
    requires Arrived(st.requests, h) && st.requests[h].deps == 0 && Handled(io.react, st.requests[h].callback, items, n, false)
    requires Grows(io, st, st1, h, Added(io.react, st.requests[h].callback, items[..n], io.emptyRoot))
    requires Carries(io, st, st1, SubsOf(io.react, st.requests[h].callback, items[..n], io.emptyRoot))
    requires Adds(st, st1, h, Added(io.react, st.requests[h].callback, items[..n], io.emptyRoot)) && Sorted(io, st1, h, items[..n], missing)
    ensures Abandoned(io, st, Fail(st1, h), h, items)
  {
    OpenAdds(st, st1, h, Added(io.react, st.requests[h].callback, items[..n], io.emptyRoot));
    OpenGrows(io, st, st1, h, Added(io.react, st.requests[h].callback, items[..n], io.emptyRoot));
    OpenCarries(io, st, st1, SubsOf(io.react, st.requests[h].callback, items[..n], io.emptyRoot));
    OpenSorted(io, st1, h, items[..n], missing);
  }

  /** What a delivery of `h` asks for. */
  ghost predicate Asks(io: Codec, st: State, st': State, h: Hash, items: seq<Item>) {
    h in st.requests && Requests(io, st, st', SubsOf(io.react, st.requests[h].callback, items, io.emptyRoot), RefsOf(items, st.requests[h].depth, st.requests[h].callback))
  }

  lemma {:induction false} AsksReceived(io: Codec, st: State, st': State, h: Hash, blob: Bytes)
    requires h in st.requests && io.decode(blob).Good? && Asks(io, Receive(st, h, blob), st', h, io.decode(blob).items)
    ensures Asks(io, st, st', h, io.decode(blob).items)
  {
    assert Receive(st, h, blob).requests.Keys == st.requests.Keys;
    forall x | x in st'.requests ensures x in Receive(st, h, blob).requests <==> x in st.requests {}
  }

  /** How a node was settled: stored at once, or held for its missing children. */
  ghost predicate SettledAs(io: Codec, st: State, st': State, h: Hash, missing: seq<Item>) {
    h in st.requests &&
    (|| (missing == [] && Stored(st.requests, st'.requests, st.batch, st'.batch) && Ranged(st, st') && st'.db == st.db && Inv(io, st', multiset{}, {}))
     || (Adds(st, st', h, Refs(missing)) && Carries(io, st, st', RefsOf(missing, st.requests[h].depth, st.requests[h].callback))))
  }

  lemma {:induction false} SettleAsks(io: Codec, st: State, st1: State, st': State, h: Hash, items: seq<Item>, missing: seq<Item>)
    requires Arrived(st.requests, h) && Adds(st, st1, h, Added(io.react, st.requests[h].callback, items, io.emptyRoot))
    requires Carries(io, st, st1, SubsOf(io.react, st.requests[h].callback, items, io.emptyRoot)) && Sorted(io, st1, h, items, missing)
    requires SettledAs(io, st1, st', h, missing)
    ensures Asks(io, st, st', h, items)
  {
    var r, roots := st.requests[h], Added(io.react, st.requests[h].callback, items, io.emptyRoot);
    StillArrived(st, st1, h, roots);
    SameDepth(st, st1, h, roots);
    if Adds(st1, st', h, Refs(missing)) && Carries(io, st1, st', RefsOf(missing, r.depth, r.callback)) {
      HeldRequests(io, st, st1, st', h, roots, Refs(missing), SubsOf(io.react, r.callback, items, io.emptyRoot), items, missing, r.depth, r.callback);
    } else {
      OpenInv(io, st', multiset{}, {});
      StoredRequests(io, st, st1, st', h, roots, SubsOf(io.react, r.callback, items, io.emptyRoot), items, r.depth, r.callback);
    }
  }

  lemma {:induction false} SameDepth(st: State, st': State, h: Hash, roots: set<Hash>)
    requires Adds(st, st', h, roots) && h in st.requests
    ensures h in st'.requests && st'.requests[h].depth == st.requests[h].depth
  {
    OpenAdds(st, st', h, roots);
  }

  lemma {:induction false} ReceiveTraced(io: Codec, st: State, h: Hash, blob: Bytes, from: (Hash, nat), start: set<Hash>)
    requires Inv(io, st, multiset{}, {}) && Traced(io, st, from, start) && h in st.requests && st.requests[h].data.Absent?
    ensures Traced(io, Receive(st, h, blob), from, start)
  {
    OpenInv(io, st, multiset{}, {});
    TracedReceive(io, st, h, blob, from, start);
  }

  lemma {:induction false} NotYetStored(io: Codec, st: State, h: Hash, idle: set<Hash>)
    requires Inv(io, st, multiset{}, idle) && h in st.requests
    ensures h !in st.batch
  {
    OpenInv(io, st, multiset{}, idle);
    assert !Settled(io, st, h);
  }

  lemma {:induction false} ChildrenTraced(io: Codec, st: State, st1: State, h: Hash, items: seq<Item>, n: nat, from: (Hash, nat), start: set<Hash>)
    requires Inv(io, st, multiset{}, {h}) && Arrived(st.requests, h) && io.decode(st.requests[h].data.blob) == Good(items) && n <= |items|
    requires Adds(st, st1, h, Added(io.react, st.requests[h].callback, items[..n], io.emptyRoot))
    requires Carries(io, st, st1, SubsOf(io.react, st.requests[h].callback, items[..n], io.emptyRoot)) && Traced(io, st, from, start)
    ensures Traced(io, st1, from, start)
  {
    NotYetStored(io, st, h, {h});
    var cb := st.requests[h].callback;
    var some := SubsOf(io.react, cb, items[..n], io.emptyRoot);
    SubsPrefix(io.react, cb, items, n, io.emptyRoot);
    forall i | 0 <= i < |some| ensures LeadsTo(io, cb, items, (some[i].root, some[i].callback)) {
      assert SubsOf(io.react, cb, items, io.emptyRoot)[i] == some[i];
    }
    TracedAdds(io, st, st1, h, Added(io.react, cb, items[..n], io.emptyRoot), some, from, start);
  }

  lemma {:induction false} SubsPrefix(react: Reaction, cb: nat, items: seq<Item>, n: nat, empty: Hash)
    requires n <= |items|
    ensures SubsOf(react, cb, items[..n], empty) <= SubsOf(react, cb, items, empty)
    decreases |items|
  {
    if n < |items| {
      SubsPrefix(react, cb, items[..|items| - 1], n, empty);
      assert items[..|items| - 1][..n] == items[..n];
    } else {
      assert items[..n] == items;
    }
  }

  lemma {:induction false} HoldTraced(io: Codec, st: State, h: Hash, items: seq<Item>, missing: seq<Item>)
    requires Inv(io, st, multiset{}, {h}) && Arrived(st.requests, h) && io.decode(st.requests[h].data.blob) == Good(items) && Sorted(io, st, h, items, missing)
    ensures LedFrom(io, st, h, RefsOf(missing, st.requests[h].depth, st.requests[h].callback))
  {
    NotYetStored(io, st, h, {h});
    OpenSorted(io, st, h, items, missing);
    MissingRefs(items, Have(st));
    var asks := RefsOf(missing, st.requests[h].depth, st.requests[h].callback);
    forall i | 0 <= i < |asks| ensures LeadsTo(io, st.requests[h].callback, items, (asks[i].root, asks[i].callback)) {
      RefsOfIn(missing, st.requests[h].depth, st.requests[h].callback, i);
    }
  }

  lemma {:induction false} RefsOfIn(items: seq<Item>, depth: nat, cb: nat, i: nat)
    requires i < |RefsOf(items, depth, cb)|
    ensures RefsOf(items, depth, cb)[i].root in Refs(items) && RefsOf(items, depth, cb)[i].callback == cb
    decreases |items|
  {
    var front, last := items[..|items| - 1], items[|items| - 1];
    assert items == front + [last];
    RefsAppend(front, last);
    if i < |RefsOf(front, depth, cb)| { RefsOfIn(front, depth, cb, i); }
  }

  lemma {:induction false} FailTraced(io: Codec, st: State, h: Hash, from: (Hash, nat), start: set<Hash>)
    requires Traced(io, st, from, start)
    ensures Traced(io, Fail(st, h), from, start)
  {
    TracedSame(io, st, Fail(st, h), from, start);
  }

  lemma {:induction false} StartTraced(io: Codec, st: State, from: (Hash, nat), start: set<Hash>)
    requires st.ran == map[] && start == st.db.Keys && st.batch == map[] && forall h :: h in st.requests ==> (h, st.requests[h].callback) == from
    ensures Traced(io, st, from, start)
  {
    ReachSelf(io, Data(st), from);
    forall h | h in Store(st) ensures h in start {}
  }

  lemma {:induction false} PartlyTraced(io: Codec, st: State, n: nat, from: (Hash, nat), start: set<Hash>)
    requires Inv(io, st, multiset{}, {}) && Traced(io, st, from, start) && n <= |st.order|
    requires forall i :: 0 <= i < |st.order| ==> st.order[i] in st.batch
    ensures Traced(io, Partly(st, n), from, start)
  {
    var st' := Partly(st, n);
    forall h ensures (h in st'.db <==> h in st.db || h in st.order[..n]) && (h in st'.db && h !in st.batch ==> h in st.db && st'.db[h] == st.db[h]) {
      PutFirstKeys(st.db, st.batch, st.order, n, h);
    }
    PutData(st.db, st'.db, st.batch, Arrivals(st.requests));
    TracedSame(io, st, st', from, start);
  }

  lemma {:induction false} PutData(db: map<Hash, Bytes>, db': map<Hash, Bytes>, batch: map<Hash, Bytes>, arrived: map<Hash, Bytes>)
    requires db.Keys <= db'.Keys && forall h :: h in db' && h !in batch ==> h in db && db'[h] == db[h]
    ensures db' + arrived + batch == db + arrived + batch && (db' + batch).Keys == (db + batch).Keys
  {
  }

  lemma {:induction false} FlushTraced(io: Codec, st: State, from: (Hash, nat), start: set<Hash>)
    requires Inv(io, st, multiset{}, {}) && Traced(io, st, from, start)
    ensures Traced(io, Flushed(st), from, start)
  {
    var st' := Flushed(st);
    forall h | h in st.requests ensures h !in st.batch { NotYetStored(io, st, h, {}); }
    FlushData(st.db, st.batch, Arrivals(st.requests));
    assert Store(st') == Store(st);
    TracedSame(io, st, st', from, start);
  }

  lemma {:induction false} FlushData(db: map<Hash, Bytes>, batch: map<Hash, Bytes>, arrived: map<Hash, Bytes>)
    requires forall h :: h in arrived ==> h !in batch
    ensures (db + batch) + arrived + map[] == db + arrived + batch
  {
  }

  lemma {:induction false} RealOne(s: Sub, empty: Hash)
    ensures Real([s], empty) == if s.root != empty then [s] else []
  {
    assert [s][..0] == [] && Real([], empty) == [];
  }

  lemma {:induction false} NoDeps(io: Codec, st: State, h: Hash)
    requires Inv(io, st, multiset{}, {}) && h in st.requests && st.requests[h].data.Absent?
    ensures st.requests[h].deps == 0
  {
    OpenInv(io, st, multiset{}, {});
    AbsentDeps(st.requests, h);
  }

  lemma {:induction false} HandledFails(react: Reaction, cb: nat, items: seq<Item>, n: nat, ok: bool)
    requires Handled(react, cb, items, n, ok)
    ensures !ok <==> Fails(react, cb, items)
  {
    if !ok { assert FailsOn(react, cb, items[n - 1]); }
  }

  lemma {:induction false} SubRootsNext(subs: seq<Sub>, i: nat, empty: Hash)
    requires i < |subs|
    ensures SubRoots(subs[..i + 1], empty) == SubRoots(subs[..i], empty) + ({subs[i].root} - {empty})
  {
    var a, b := subs[..i], subs[..i + 1];
    forall h | h in SubRoots(a, empty) ensures h in SubRoots(b, empty) {
      var j :| 0 <= j < |a| && a[j].root != empty && a[j].root == h;
      assert b[j] == a[j];
    }
    assert b[i] == subs[i];
  }

  /** The entry is one of the deepest, and the others stay. */
  ghost predicate Popped(queue: seq<(Hash, nat)>, rest: seq<(Hash, nat)>, x: (Hash, nat)) {
    && multiset(queue) == multiset(rest) + multiset{x} && |queue| == |rest| + 1
    && (forall y :: y in rest <==> y in queue && y != x)
    && forall y :: y in queue ==> y.1 <= x.1
  }

  lemma {:induction false} PopOne(queue: seq<(Hash, nat)>, k: nat)
    requires k < |queue| && (forall i, j :: 0 <= i < j < |queue| ==> queue[i] != queue[j]) && forall j :: 0 <= j < |queue| ==> queue[j].1 <= queue[k].1
    ensures Popped(queue, queue[..k] + queue[k + 1..], queue[k])
  {
    assert queue == queue[..k] + [queue[k]] + queue[k + 1..];
    var rest := queue[..k] + queue[k + 1..];
    forall y | y in rest ensures y in queue && y != queue[k] {
      var j :| 0 <= j < |rest| && rest[j] == y;
      assert y == queue[if j < k then j else j + 1];
    }
  }

  /** What was taken, in falling depth and none above what is left, and what is left are the old queue. */
  ghost predicate Handed(before: seq<(Hash, nat)>, queue: seq<(Hash, nat)>, taken: seq<(Hash, nat)>) {
    && multiset(before) == multiset(queue) + multiset(taken)
    && (forall i, j :: 0 <= i < j < |taken| ==> taken[j].1 <= taken[i].1)
    && forall i, y :: 0 <= i < |taken| && y in queue ==> y.1 <= taken[i].1
  }

  /** No hash is handed out twice, or is still queued. */
  ghost predicate Apart(queue: seq<(Hash, nat)>, taken: seq<(Hash, nat)>) {
    && (forall i, j :: 0 <= i < j < |taken| ==> taken[i].0 != taken[j].0)
    && forall i, y :: 0 <= i < |taken| && y in queue ==> y.0 != taken[i].0
  }

  ghost predicate Firsts(taken: seq<(Hash, nat)>, hashes: seq<Hash>) {
    |hashes| == |taken| && forall i :: 0 <= i < |taken| ==> hashes[i] == taken[i].0
  }

  lemma {:induction false} HandOne(before: seq<(Hash, nat)>, q: seq<(Hash, nat)>, queue: seq<(Hash, nat)>, taken: seq<(Hash, nat)>, x: (Hash, nat))
    requires Handed(before, q, taken) && Apart(q, taken) && Popped(q, queue, x) && forall y :: y in queue ==> y.0 != x.0
    ensures Handed(before, queue, taken + [x]) && Apart(queue, taken + [x])
  {
    assert x in multiset(q);
    assert x in q;
  }
}
