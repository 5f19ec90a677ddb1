/**
 seekElders of core/tx_pool.go: a breadth-first search for the unconfirmed past of a sequencer,
 through the parents of pooled transactions.
 */
module ElderSearch {
  import opened Ledger
  import opened Dag
  import opened PoolState

  /** Each hash on the path is a parent of the pooled transaction before it. */
  ghost predicate Path(p: Pool, start: seq<Hash>, path: seq<Hash>) {
    && |path| > 0 && path[0] in start
    && forall i :: 0 < i < |path| ==> Parent(p, path[i - 1], path[i])
  }

  predicate Parent(p: Pool, h: Hash, q: Hash) {
    h in p.lookup && q in p.lookup[h].tx.parents
  }

  ghost predicate Reached(p: Pool, start: seq<Hash>, h: Hash) {
    exists path :: Path(p, start, path) && path[|path| - 1] == h
  }

  lemma {:induction false} ReachedStart(p: Pool, start: seq<Hash>, h: Hash)
    requires h in start
    ensures Reached(p, start, h)
  {
    assert Path(p, start, [h]) && [h][0] == h;
  }

  lemma {:induction false} ReachedParent(p: Pool, start: seq<Hash>, h: Hash, q: Hash)
    requires Reached(p, start, h) && Parent(p, h, q)
    ensures Reached(p, start, q)
  {
    var path :| Path(p, start, path) && path[|path| - 1] == h;
    var longer := path + [q];
    forall i | 0 < i < |longer| ensures Parent(p, longer[i - 1], longer[i]) {
      if i < |path| { assert longer[i - 1] == path[i - 1] && longer[i] == path[i]; }
    }
    assert Path(p, start, longer) && longer[|longer| - 1] == q;
  }

  /** A set that holds the start and the parents of its pooled members. */
  ghost predicate Closed(p: Pool, start: seq<Hash>, visited: set<Hash>) {
    && (forall h :: h in start ==> h in visited)
    && (forall h, q :: h in visited && Parent(p, h, q) ==> q in visited)
  }

  lemma {:induction false} ReachedVisited(p: Pool, start: seq<Hash>, visited: set<Hash>, path: seq<Hash>, k: nat)
    requires Closed(p, start, visited) && Path(p, start, path) && k < |path|
    ensures path[k] in visited
    decreases k
  {
    if k > 0 {
      ReachedVisited(p, start, visited, path, k - 1);
      assert Parent(p, path[k - 1], path[k]);
    }
  }

  ghost predicate AllReached(p: Pool, start: seq<Hash>, hs: set<Hash>) {
    forall h :: h in hs ==> Reached(p, start, h)
  }

  function Elements(s: seq<Hash>): set<Hash> {
    set h | h in s
  }

  lemma {:induction false} ElementsAppend(s: seq<Hash>, x: Hash)
    ensures Elements(s + [x]) == Elements(s) + {x}
  {
  }

  /** Every hash some pooled transaction names. */
  function AllParents(p: Pool): set<Hash> {
    set h, q | h in p.lookup && q in p.lookup[h].tx.parents :: q
  }

  /** Appends the parents that were not seen before. */
  method Append(queue: seq<Hash>, seen: set<Hash>, parents: seq<Hash>) returns (queue': seq<Hash>, seen': set<Hash>)
    ensures seen' == seen + Elements(parents)
    ensures Elements(queue') == Elements(queue) + (Elements(parents) - seen)
    ensures seen' == seen ==> queue' == queue
  {
    queue', seen' := queue, seen;
    var i := 0;
    while i < |parents|
      invariant 0 <= i <= |parents|
      invariant seen' == seen + Elements(parents[..i])
      invariant Elements(queue') == Elements(queue) + (Elements(parents[..i]) - seen)
      invariant seen' == seen ==> queue' == queue
    {
      assert parents[..i + 1] == parents[..i] + [parents[i]];
      ElementsAppend(parents[..i], parents[i]);
      ElementsAppend(queue', parents[i]);
      if parents[i] !in seen' {
        queue' := queue' + [parents[i]];
        seen' := seen' + {parents[i]};
      }
      i := i + 1;
    }
    assert parents[..i] == parents;
  }

  /** The search so far, where the parents of `open` are not looked at yet. */
  ghost predicate Search(p: Pool, start: seq<Hash>, visited: set<Hash>, queue: seq<Hash>, seen: set<Hash>, open: set<Hash>) {
    && AllReached(p, start, visited + Elements(queue))
    && (forall h :: h in start ==> h in visited || h in queue)
    && (forall h, q :: h in visited && h !in open && Parent(p, h, q) ==> q in visited || q in queue)
    && seen <= visited + Elements(queue) && seen <= AllParents(p)
  }

  /** What is collected: the visited hashes that are pooled; the others are confirmed. */
  ghost predicate Collected(p: Pool, c: Chain, visited: set<Hash>, elders: map<Hash, Tx>) {
    && (forall h :: h in visited ==> h in p.lookup || h in c.txs)
    && (forall h :: h in elders <==> h in visited && h in p.lookup)
    && (forall h :: h in elders ==> elders[h] == p.lookup[h].tx)
  }

  /** The first hash of the queue is visited next. */
  lemma {:induction false} Take(p: Pool, start: seq<Hash>, visited: set<Hash>, queue: seq<Hash>, seen: set<Hash>)
    requires queue != [] && Search(p, start, visited, queue, seen, {})
    ensures Reached(p, start, queue[0]) && Search(p, start, visited + {queue[0]}, queue[1..], seen, {queue[0]})
    ensures queue[0] !in p.lookup ==> Search(p, start, visited + {queue[0]}, queue[1..], seen, {})
  {
    assert queue == [queue[0]] + queue[1..];
    assert queue[0] in visited + Elements(queue);
    assert visited + Elements(queue) == visited + {queue[0]} + Elements(queue[1..]);
  }

  /**
   Finds exactly the pooled transactions that are reached from the sequencer through pooled
   parents; fails exactly when something reached is neither pooled nor confirmed.
   */
  method SeekElders(p: Pool, c: Chain, base: Tx) returns (ok: bool, elders: map<Hash, Tx>)
    ensures ok <==> forall h :: Reached(p, base.parents, h) ==> h in p.lookup || h in c.txs
    ensures ok ==> forall h :: h in elders <==> Reached(p, base.parents, h) && h in p.lookup
    ensures ok ==> forall h :: h in elders ==> elders[h] == p.lookup[h].tx
  {
    elders := map[];
    var queue, seen: set<Hash> := base.parents, {};
    ghost var visited: set<Hash> := {};
    forall h | h in queue ensures Reached(p, base.parents, h) { ReachedStart(p, base.parents, h); }
    while queue != []
      invariant Search(p, base.parents, visited, queue, seen, {}) && Collected(p, c, visited, elders)
      decreases |AllParents(p) - seen|, |queue|
    {
      var h := queue[0];
      if h !in p.lookup && h !in c.txs {
        Take(p, base.parents, visited, queue, seen);
        return false, elders;
      }
      queue, seen := Next(p, base.parents, queue, seen, visited);
      CollectStep(p, c, visited, elders, h);
      visited := visited + {h};
      if h in p.lookup { elders := elders[h := p.lookup[h].tx]; }
    }
    Finished(p, base.parents, visited, seen);
    ok := true;
  }

  lemma {:induction false} CollectStep(p: Pool, c: Chain, visited: set<Hash>, elders: map<Hash, Tx>, h: Hash)
    requires Collected(p, c, visited, elders) && (h in p.lookup || h in c.txs)
    ensures Collected(p, c, visited + {h}, if h in p.lookup then elders[h := p.lookup[h].tx] else elders)
  {
  }

  /** Takes one hash off the queue and, if it is pooled, puts its unseen parents on. */
  method Next(p: Pool, ghost start: seq<Hash>, queue: seq<Hash>, seen: set<Hash>, ghost visited: set<Hash>)
    returns (queue': seq<Hash>, seen': set<Hash>)
    requires queue != [] && Search(p, start, visited, queue, seen, {})
    ensures Search(p, start, visited + {queue[0]}, queue', seen', {})
    ensures |AllParents(p) - seen'| < |AllParents(p) - seen| || (seen' == seen && queue' == queue[1..])
  {
    Take(p, start, visited, queue, seen);
    queue', seen' := queue[1..], seen;
    if queue[0] in p.lookup {
      queue', seen' := Visit(p, start, queue[0], queue', seen', visited + {queue[0]});
    }
  }

  method Visit(p: Pool, ghost start: seq<Hash>, h: Hash, queue: seq<Hash>, seen: set<Hash>, ghost visited: set<Hash>)
    returns (queue': seq<Hash>, seen': set<Hash>)
    requires h in p.lookup && h in visited && Search(p, start, visited, queue, seen, {h})
    ensures Search(p, start, visited, queue', seen', {})
    ensures |AllParents(p) - seen'| < |AllParents(p) - seen| || (seen' == seen && queue' == queue)
  {
    var parents := p.lookup[h].tx.parents;
    queue', seen' := Append(queue, seen, parents);
    Visited(p, start, h, queue, seen, visited, queue', seen');
    if seen' != seen {
      assert AllParents(p) - seen' < AllParents(p) - seen by { NewParent(p, h, seen); }
      Smaller(AllParents(p) - seen', AllParents(p) - seen);
    }
  }

  lemma {:induction false} NewParent(p: Pool, h: Hash, seen: set<Hash>)
    requires h in p.lookup
    ensures Elements(p.lookup[h].tx.parents) <= AllParents(p)
    ensures seen + Elements(p.lookup[h].tx.parents) != seen ==>
              AllParents(p) - (seen + Elements(p.lookup[h].tx.parents)) < AllParents(p) - seen
  {
    var es := Elements(p.lookup[h].tx.parents);
    assert es <= AllParents(p);
    if seen + es != seen {
      var q :| q in es && q !in seen;
      assert q in AllParents(p) - seen && q !in AllParents(p) - (seen + es);
    }
  }

  lemma {:induction false} Visited(p: Pool, start: seq<Hash>, h: Hash, queue: seq<Hash>, seen: set<Hash>, visited: set<Hash>, queue': seq<Hash>, seen': set<Hash>)
    requires h in p.lookup && h in visited && Search(p, start, visited, queue, seen, {h})
    requires seen' == seen + Elements(p.lookup[h].tx.parents)
    requires Elements(queue') == Elements(queue) + (Elements(p.lookup[h].tx.parents) - seen)
    ensures Search(p, start, visited, queue', seen', {})
  {
    var parents := p.lookup[h].tx.parents;
    forall q | q in parents ensures Reached(p, start, q) && q in AllParents(p) {
      assert h in visited + Elements(queue) && Parent(p, h, q);
      ReachedParent(p, start, h, q);
    }
    forall x | x in queue ensures x in queue' { assert x in Elements(queue) && x in Elements(queue'); }
    forall q | q in parents ensures q in visited || q in queue' {
      if q !in seen { assert q in Elements(queue'); } else { assert q in visited + Elements(queue); }
    }
  }

  lemma {:induction false} Smaller(s: set<Hash>, t: set<Hash>)
    requires s < t
    ensures |s| < |t|
  {
    assert |t| == |s| + |t - s| by { assert t == s + (t - s); }
    assert t - s != {};
  }

  lemma {:induction false} Finished(p: Pool, start: seq<Hash>, visited: set<Hash>, seen: set<Hash>)
    requires Search(p, start, visited, [], seen, {})
    ensures forall h :: Reached(p, start, h) <==> h in visited
  {
    assert visited + Elements([]) == visited;
    forall h | Reached(p, start, h) ensures h in visited {
      var path :| Path(p, start, path) && path[|path| - 1] == h;
      ReachedVisited(p, start, visited, path, |path| - 1);
    }
  }
}
