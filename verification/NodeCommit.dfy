/** The order and effect of the writes of a commit (trie/database.go). */
module NodeCommit {
  import opened Encoding
  import opened NodeGraph

  type Puts = seq<(Hash, Bytes)>

  /** Writing a batch out, in order. */
  function Apply(disk: map<Hash, Bytes>, puts: Puts): map<Hash, Bytes>
    decreases |puts|
  {
    if puts == [] then disk else Apply(disk[puts[0].0 := puts[0].1], puts[1..])
  }

  /** What `Node` returns: the cached blob, else the one on disk. */
  function Visible(g: Graph, disk: map<Hash, Bytes>, h: Hash): (blob: seq<Bytes>) {
    if h in g then [g[h].blob] else if h in disk then [disk[h]] else []
  }

  function ValueSize(puts: Puts): nat {
    if puts == [] then 0 else |puts[0].1| + ValueSize(puts[1..])
  }

  /** The puts are exactly the nodes of `s`, with their cached blobs. */
  ghost predicate Written(puts: Puts, g: Graph, s: set<Hash>) {
    && (forall i :: 0 <= i < |puts| ==> puts[i].0 in s && puts[i].0 in g && puts[i].1 == g[puts[i].0].blob)
    && (forall x :: x in s ==> IsPut(puts, x))
  }

  /** Every put comes after puts of all its cached children. */
  ghost predicate ChildrenFirst(puts: Puts, g: Graph) {
    forall i, c :: 0 <= i < |puts| && puts[i].0 in g && c in g[puts[i].0].children && c in g ==>
      IsPut(puts[..i], c)
  }

  ghost function ReachAll(g: Graph, cs: set<Hash>, rank: Hash -> nat): set<Hash>
    requires Acyclic(g, rank)
  {
    set c, x | c in cs && x in Reach(g, c, rank) :: x
  }

  lemma {:induction false} ApplyConcat(disk: map<Hash, Bytes>, a: Puts, b: Puts)
    ensures Apply(disk, a + b) == Apply(Apply(disk, a), b)
    decreases |a|
  {
    if a == [] {
      assert a + b == b;
    } else {
      ApplyConcat(disk[a[0].0 := a[0].1], a[1..], b);
      assert (a + b)[1..] == a[1..] + b;
    }
  }

  ghost predicate IsPut(puts: Puts, x: Hash) {
    exists i :: 0 <= i < |puts| && puts[i].0 == x
  }

  ghost predicate AllPut(puts: Puts, x: Hash, v: Bytes) {
    forall i :: 0 <= i < |puts| && puts[i].0 == x ==> puts[i].1 == v
  }

  /** Keys that are not put keep their value; keys that are put hold the value all their puts agree on. */
  lemma {:induction false} ApplyAt(disk: map<Hash, Bytes>, puts: Puts, x: Hash, v: Bytes)
    requires AllPut(puts, x, v)
    ensures IsPut(puts, x) ==> x in Apply(disk, puts) && Apply(disk, puts)[x] == v
    ensures !IsPut(puts, x) ==> (x in Apply(disk, puts) <==> x in disk) && (x in disk ==> Apply(disk, puts)[x] == disk[x])
    decreases |puts|
  {
    if puts != [] {
      var rest := puts[1..];
      assert forall i :: 0 <= i < |rest| ==> rest[i] == puts[i + 1];
      ApplyAt(disk[puts[0].0 := puts[0].1], rest, x, v);
    }
  }

  lemma {:induction false} PutLeft(a: Puts, b: Puts, x: Hash)
    requires IsPut(a, x)
    ensures IsPut(a + b, x)
  {
    var i :| 0 <= i < |a| && a[i].0 == x;
    assert (a + b)[i].0 == x;
  }

  lemma {:induction false} PutRight(a: Puts, b: Puts, x: Hash)
    requires IsPut(b, x)
    ensures IsPut(a + b, x)
  {
    var i :| 0 <= i < |b| && b[i].0 == x;
    assert (a + b)[|a| + i].0 == x;
  }

  lemma {:induction false} WrittenConcat(a: Puts, b: Puts, g: Graph, s: set<Hash>, t: set<Hash>)
    requires Written(a, g, s) && Written(b, g, t)
    ensures Written(a + b, g, s + t)
  {
    forall x | x in s + t ensures IsPut(a + b, x) {
      if x in s { PutLeft(a, b, x); } else { PutRight(a, b, x); }
    }
  }

  lemma {:induction false} OrderConcat(a: Puts, b: Puts, g: Graph)
    requires ChildrenFirst(a, g) && ChildrenFirst(b, g)
    ensures ChildrenFirst(a + b, g)
  {
    var all := a + b;
    forall i, c | 0 <= i < |all| && all[i].0 in g && c in g[all[i].0].children && c in g
      ensures IsPut(all[..i], c)
    {
      if i < |a| {
        assert all[..i] == a[..i];
      } else {
        assert all[..i] == a + b[..i - |a|];
        PutRight(a, b[..i - |a|], c);
      }
    }
  }

  /** The puts of one more child, after those of `cs`. */
  lemma {:induction false} WrittenJoin(a: Puts, b: Puts, g: Graph, cs: set<Hash>, c: Hash, rank: Hash -> nat)
    requires Acyclic(g, rank) && Written(a, g, ReachAll(g, cs, rank)) && Written(b, g, Reach(g, c, rank))
    requires ChildrenFirst(a, g) && ChildrenFirst(b, g)
    ensures Written(a + b, g, ReachAll(g, cs + {c}, rank)) && ChildrenFirst(a + b, g)
  {
    WrittenConcat(a, b, g, ReachAll(g, cs, rank), Reach(g, c, rank));
    OrderConcat(a, b, g);
    ReachAllAdd(g, cs, c, rank);
  }

  /** A node put after everything its children reach. */
  lemma {:induction false} WrittenSelf(puts: Puts, g: Graph, h: Hash, rank: Hash -> nat)
    requires Acyclic(g, rank) && h in g && Written(puts, g, ReachAll(g, g[h].children.Keys, rank)) && ChildrenFirst(puts, g)
    ensures Written(puts + [(h, g[h].blob)], g, Reach(g, h, rank)) && ChildrenFirst(puts + [(h, g[h].blob)], g)
  {
    var last := [(h, g[h].blob)];
    assert last[0].0 == h;
    assert Written(last, g, {h});
    assert Reach(g, h, rank) == ReachAll(g, g[h].children.Keys, rank) + {h};
    WrittenConcat(puts, last, g, ReachAll(g, g[h].children.Keys, rank), {h});
    OrderSelf(puts, g, h, rank);
  }

  lemma {:induction false} OrderSelf(puts: Puts, g: Graph, h: Hash, rank: Hash -> nat)
    requires Acyclic(g, rank) && h in g && Written(puts, g, ReachAll(g, g[h].children.Keys, rank)) && ChildrenFirst(puts, g)
    ensures ChildrenFirst(puts + [(h, g[h].blob)], g)
  {
    var all := puts + [(h, g[h].blob)];
    forall i, c | 0 <= i < |all| && all[i].0 in g && c in g[all[i].0].children && c in g
      ensures IsPut(all[..i], c)
    {
      assert all[..i] == puts[..i];
      if i == |puts| {
        assert c in Reach(g, c, rank);
        assert c in ReachAll(g, g[h].children.Keys, rank);
        assert puts[..i] == puts;
      }
    }
  }

  // ---------------------------------------------------------------------------
  // Uncaching
  // ---------------------------------------------------------------------------

  ghost predicate ClosedDown(g: Graph, s: set<Hash>) {
    forall p, c :: p in s && p in g && c in g[p].children && c in g ==> c in s
  }

  lemma {:induction false} AcyclicMinus(g: Graph, s: set<Hash>, rank: Hash -> nat)
    requires Acyclic(g, rank)
    ensures Acyclic(g - s, rank)
  {
  }

  /** Taking out a set that is closed downwards takes exactly that set out of what is reached. */
  lemma {:induction false} ReachMinus(g: Graph, s: set<Hash>, h: Hash, rank: Hash -> nat)
    requires Acyclic(g, rank) && ClosedDown(g, s) && Acyclic(g - s, rank)
    ensures Reach(g - s, h, rank) == Reach(g, h, rank) - s
    decreases rank(h)
  {
    if h in g && h in s {
      ReachInside(g, h, s, rank);
    } else if h in g {
      var kids := g[h].children.Keys;
      forall c | c in kids ensures Reach(g - s, c, rank) == Reach(g, c, rank) - s {
        ReachMinus(g, s, c, rank);
      }
      ReachAllMinus(g, s, kids, rank);
      ReachUnfold(g, h, rank);
      ReachUnfold(g - s, h, rank);
    }
  }

  lemma {:induction false} ReachAllMinus(g: Graph, s: set<Hash>, cs: set<Hash>, rank: Hash -> nat)
    requires Acyclic(g, rank) && Acyclic(g - s, rank)
    requires forall c :: c in cs ==> Reach(g - s, c, rank) == Reach(g, c, rank) - s
    ensures ReachAll(g - s, cs, rank) == ReachAll(g, cs, rank) - s
  {
    forall x | x in ReachAll(g, cs, rank) && x !in s ensures x in ReachAll(g - s, cs, rank) {
      var c :| c in cs && x in Reach(g, c, rank);
      assert x in Reach(g - s, c, rank);
    }
    forall x | x in ReachAll(g - s, cs, rank) ensures x in ReachAll(g, cs, rank) && x !in s {
      var c :| c in cs && x in Reach(g - s, c, rank);
      assert x in Reach(g, c, rank);
    }
  }

  lemma {:induction false} ReachUnfold(g: Graph, h: Hash, rank: Hash -> nat)
    requires Acyclic(g, rank) && h in g
    ensures Reach(g, h, rank) == {h} + ReachAll(g, g[h].children.Keys, rank)
  {
  }

  lemma {:induction false} ReachClosed(g: Graph, h: Hash, rank: Hash -> nat)
    requires Acyclic(g, rank)
    ensures ClosedDown(g, Reach(g, h, rank)) && Reach(g, h, rank) <= g.Keys
    ensures forall x :: x in Reach(g, h, rank) ==> x == h || rank(x) < rank(h)
    decreases rank(h)
  {
    forall p, c | p in Reach(g, h, rank) && p in g && c in g[p].children && c in g ensures c in Reach(g, h, rank) {
      ReachStep(g, h, p, c, rank);
    }
    if h in g {
      forall c | c in g[h].children
        ensures Reach(g, c, rank) <= g.Keys && forall x :: x in Reach(g, c, rank) ==> rank(x) < rank(h)
      {
        ReachClosed(g, c, rank);
      }
    }
  }

  lemma {:induction false} ReachAllClosed(g: Graph, cs: set<Hash>, rank: Hash -> nat)
    requires Acyclic(g, rank)
    ensures ClosedDown(g, ReachAll(g, cs, rank))
  {
    forall c | c in cs ensures ClosedDown(g, Reach(g, c, rank)) { ReachClosed(g, c, rank); }
  }

  lemma {:induction false} ReachAllAdd(g: Graph, cs: set<Hash>, c: Hash, rank: Hash -> nat)
    requires Acyclic(g, rank)
    ensures ReachAll(g, cs + {c}, rank) == ReachAll(g, cs, rank) + Reach(g, c, rank)
  {
  }

  /** One more subtrie uncached, after those of `cs`. */
  lemma {:induction false} UncacheStep(g: Graph, cs: set<Hash>, c: Hash, rank: Hash -> nat)
    requires Acyclic(g, rank)
    ensures Acyclic(g - ReachAll(g, cs, rank), rank)
    ensures g - ReachAll(g, cs, rank) - Reach(g - ReachAll(g, cs, rank), c, rank) == g - ReachAll(g, cs + {c}, rank)
  {
    var s := ReachAll(g, cs, rank);
    AcyclicMinus(g, s, rank);
    ReachAllClosed(g, cs, rank);
    ReachMinus(g, s, c, rank);
    ReachAllAdd(g, cs, c, rank);
  }

  /** A mention of a graph, which opens what is said about it below. */
  predicate Glance(g: Graph, n: int) {
    true
  }

  /** The trie of `h` can be uncached; opened only where the graph is glanced at. */
  ghost predicate Clear(g: Graph, h: Hash, rank: Hash -> nat) {
    forall n {:trigger Glance(g, n)} :: Glance(g, n) ==> Acyclic(g, rank) && META !in Reach(g, h, rank)
  }

  /** `g'` is `g` without all that the nodes `cs` reach; opened only where the graph is glanced at. */
  ghost predicate Gone(g: Graph, cs: set<Hash>, g': Graph, rank: Hash -> nat) {
    forall n {:trigger Glance(g, n)} :: Glance(g, n) ==> Acyclic(g, rank) && g' == g - ReachAll(g, cs, rank)
  }

  lemma {:induction false} OpenClear(g: Graph, h: Hash, rank: Hash -> nat)
    requires Clear(g, h, rank)
    ensures Acyclic(g, rank) && META !in Reach(g, h, rank)
  {
    assert Glance(g, 0);
  }

  lemma {:induction false} OpenGone(g: Graph, cs: set<Hash>, g': Graph, rank: Hash -> nat)
    requires Gone(g, cs, g', rank)
    ensures Acyclic(g, rank) && g' == g - ReachAll(g, cs, rank)
  {
    assert Glance(g, 0);
  }

  lemma {:induction false} GoneOne(g: Graph, h: Hash, g': Graph, rank: Hash -> nat)
    requires Gone(g, {h}, g', rank)
    ensures Acyclic(g, rank) && g' == g - Reach(g, h, rank)
  {
    OpenGone(g, {h}, g', rank);
    assert ReachAll(g, {h}, rank) == Reach(g, h, rank);
  }

  lemma {:induction false} GoneNone(g: Graph, h: Hash, rank: Hash -> nat)
    requires Clear(g, h, rank)
    ensures Gone(g, {}, g, rank) && (h !in g ==> Gone(g, {h}, g, rank))
  {
    OpenClear(g, h, rank);
    assert ReachAll(g, {}, rank) == {};
    assert h !in g ==> ReachAll(g, {h}, rank) == {};
  }

  /** The next subtrie of `h` can be uncached too. */
  lemma {:induction false} ClearChild(g: Graph, h: Hash, cs: set<Hash>, c: Hash, g1: Graph, rank: Hash -> nat)
    requires Clear(g, h, rank) && Gone(g, cs, g1, rank) && h in g && c in g[h].children
    ensures Clear(g1, c, rank) && rank(c) < rank(h)
  {
    OpenClear(g, h, rank);
    OpenGone(g, cs, g1, rank);
    AcyclicMinus(g, ReachAll(g, cs, rank), rank);
    ReachAllClosed(g, cs, rank);
    ReachMinus(g, ReachAll(g, cs, rank), c, rank);
    assert Reach(g, c, rank) <= ReachAll(g, g[h].children.Keys, rank);
    ReachUnfold(g, h, rank);
  }

  lemma {:induction false} GoneJoin(g: Graph, cs: set<Hash>, c: Hash, g1: Graph, g2: Graph, rank: Hash -> nat)
    requires Gone(g, cs, g1, rank) && Gone(g1, {c}, g2, rank)
    ensures Gone(g, cs + {c}, g2, rank)
  {
    OpenGone(g, cs, g1, rank);
    GoneOne(g1, c, g2, rank);
    UncacheStep(g, cs, c, rank);
  }

  /** After its subtries the node itself goes. */
  lemma {:induction false} GoneSelf(g: Graph, h: Hash, g1: Graph, rank: Hash -> nat)
    requires Clear(g, h, rank) && h in g && Gone(g, g[h].children.Keys, g1, rank)
    ensures h in g1 && g1[h] == g[h] && h != META && Gone(g, {h}, g1 - {h}, rank)
  {
    OpenClear(g, h, rank);
    OpenGone(g, g[h].children.Keys, g1, rank);
    ReachUnfold(g, h, rank);
    ChildrenMiss(g, h, rank);
    assert ReachAll(g, {h}, rank) == Reach(g, h, rank);
  }

  lemma {:induction false} ChildrenMiss(g: Graph, h: Hash, rank: Hash -> nat)
    requires Acyclic(g, rank) && h in g
    ensures h !in ReachAll(g, g[h].children.Keys, rank)
  {
    forall c | c in g[h].children ensures h !in Reach(g, c, rank) { ReachClosed(g, c, rank); }
  }

  /** Uncaching a trie keeps the counts of all other nodes exact. */
  lemma {:induction false} MinusOk(g: Graph, s: set<Hash>, rank: Hash -> nat)
    requires RefOk(g, rank) && ClosedDown(g, s) && META !in s
    ensures RefOk(g - s, rank)
  {
    var g' := g - s;
    forall p, c | p in g' && c in g'[p].children ensures LinkOk(g', p, c) { assert LinkOk(g, p, c); }
    forall x | x in g' ensures CountOk(g', x) {
      assert CountOk(g, x);
      assert Parents(g', x) == Parents(g, x);
    }
  }

  lemma {:induction false} MetaNotReached(g: Graph, h: Hash, rank: Hash -> nat)
    requires RefOk(g, rank) && h != META
    ensures META !in Reach(g, h, rank)
    decreases rank(h)
  {
    if h in g {
      forall c | c in g[h].children ensures META !in Reach(g, c, rank) {
        assert LinkOk(g, h, c);
        MetaNotReached(g, c, rank);
      }
    }
  }

  /** Readers of the cache cannot tell the two disks apart. */
  ghost predicate SeenAlike(g: Graph, disk: map<Hash, Bytes>, disk': map<Hash, Bytes>) {
    forall x :: x !in g ==> Visible(g, disk, x) == Visible(g, disk', x)
  }

  ghost predicate Cached(g: Graph, puts: Puts) {
    forall i :: 0 <= i < |puts| ==> puts[i].0 in g
  }

  lemma {:induction false} ApplyUnseen(g: Graph, disk: map<Hash, Bytes>, puts: Puts)
    requires Cached(g, puts)
    ensures SeenAlike(g, disk, Apply(disk, puts))
  {
    forall x | x !in g ensures Visible(g, disk, x) == Visible(g, Apply(disk, puts), x) { ApplyAt(disk, puts, x, []); }
  }

  /**
   Two-phase commit is invisible to readers: a cached node that was put and then uncached reads
   from disk as it read from memory, and every other node is read where it was.
   */
  lemma {:induction false} CommitInvisible(g: Graph, disk: map<Hash, Bytes>, puts: Puts, s: set<Hash>, x: Hash)
    requires Written(puts, g, s)
    ensures Visible(g - s, Apply(disk, puts), x) == Visible(g, disk, x)
    ensures Visible(g, Apply(disk, puts), x) == Visible(g, disk, x)
  {
    if x in s {
      ApplyAt(disk, puts, x, g[x].blob);
    } else {
      ApplyAt(disk, puts, x, []);
    }
  }
}
