/**
 The node graph of the trie cache (trie/database.go): what exact reference counts are, how
 they change, and why exact counts on an acyclic graph make garbage collection exact.

 Nodes are named by hash; the zero hash names the meta-root that holds the references to the
 live tries.  Hash links cannot form cycles, which `rank` records: a child ranks below its
 parents.
 */
module NodeGraph {
  import opened Encoding
  import opened Sums

  type Hash = nat

  const META: Hash := 0

  const HASH_LENGTH := 32

  datatype CachedNode = CachedNode(blob: Bytes, parents: int, children: map<Hash, int>)

  type Graph = map<Hash, CachedNode>

  // ---------------------------------------------------------------------------
  // Reference counts
  // ---------------------------------------------------------------------------

  function Edge(g: Graph, p: Hash, c: Hash): int {
    if p in g && c in g[p].children then g[p].children[c] else 0
  }

  /** The cached nodes, other than the meta-root, that have the child. */
  ghost function Parents(g: Graph, c: Hash): set<Hash> {
    set p | p in g && p != META && c in g[p].children
  }

  /** The total of the incoming child counts: one for every node, any number for the meta-root. */
  ghost function Indegree(g: Graph, c: Hash): int {
    |Parents(g, c)| + Edge(g, META, c)
  }

  /** Children are counted once, except that the meta-root may count a trie several times.  A child that is not cached was committed. */
  ghost predicate Linked(g: Graph) {
    forall p, c {:trigger LinkOk(g, p, c)} :: p in g && c in g[p].children ==> LinkOk(g, p, c)
  }

  ghost predicate LinkOk(g: Graph, p: Hash, c: Hash) {
    p in g && c != META && (if p == META then Edge(g, p, c) >= 1 else Edge(g, p, c) == 1)
  }

  ghost predicate Counted(g: Graph) {
    forall c {:trigger CountOk(g, c)} :: c in g ==> CountOk(g, c)
  }

  ghost predicate CountOk(g: Graph, c: Hash) {
    c in g && g[c].parents == Indegree(g, c)
  }

  ghost predicate RefOk(g: Graph, rank: Hash -> nat) {
    META in g && Linked(g) && Counted(g) && Acyclic(g, rank)
  }

  /** Hash links go down. */
  ghost predicate Acyclic(g: Graph, rank: Hash -> nat) {
    forall p, c :: p in g && c in g[p].children ==> rank(c) < rank(p)
  }

  /** `nodesSize`: every cached node but the meta-root, with its hash. */
  ghost function SizeOf(g: Graph): int {
    Sum(g.Keys - {META}, h => Bytesize(g, h))
  }

  function Bytesize(g: Graph, h: Hash): int {
    if h in g then HASH_LENGTH + |g[h].blob| else 0
  }

  // ---------------------------------------------------------------------------
  // How the counts change
  // ---------------------------------------------------------------------------

  /** `children[child]--`, with the entry deleted at zero. */
  function Dec(children: map<Hash, int>, c: Hash): map<Hash, int>
    requires c in children
  {
    if children[c] == 1 then children - {c} else children[c := children[c] - 1]
  }

  /** The graph without one reference from `p` to `c`; the child's own count is left for later. */
  function Cut(g: Graph, p: Hash, c: Hash): Graph
    requires p in g && c in g[p].children
  {
    g[p := g[p].(children := Dec(g[p].children, c))]
  }

  /** The graph after both halves of a dereference: the edge and the child's count. */
  function Unlink(g: Graph, p: Hash, c: Hash): Graph
    requires p in g && c in g[p].children && c in g
  {
    var g1 := Cut(g, p, c);
    g1[c := g1[c].(parents := g1[c].parents - 1)]
  }

  lemma {:induction false} UnlinkEdges(g: Graph, p: Hash, c: Hash, q: Hash, x: Hash)
    requires p in g && c in g[p].children && c in g && p != c
    ensures Unlink(g, p, c).Keys == g.Keys
    ensures Edge(Unlink(g, p, c), q, x) == Edge(g, q, x) - if q == p && x == c then 1 else 0
    ensures q in g ==> (x in Unlink(g, p, c)[q].children <==>
                        x in g[q].children && !(q == p && x == c && g[p].children[c] == 1))
  {
    var g' := Unlink(g, p, c);
    assert g'[p].children == Dec(g[p].children, c);
    assert g'[c].children == g[c].children;
  }

  /** Decrementing the count with the edge keeps every count exact. */
  lemma {:induction false} UnlinkOk(g: Graph, p: Hash, c: Hash, rank: Hash -> nat)
    requires RefOk(g, rank) && p in g && c in g[p].children && c in g
    ensures RefOk(Unlink(g, p, c), rank)
  {
    assert LinkOk(g, p, c) && rank(c) < rank(p);
    var g' := Unlink(g, p, c);
    UnlinkEdges(g, p, c, p, c);
    forall q, x | q in g' && x in g'[q].children ensures LinkOk(g', q, x) {
      UnlinkEdges(g, p, c, q, x);
      assert LinkOk(g, q, x);
    }
    forall x | x in g' ensures CountOk(g', x) {
      assert CountOk(g, x);
      UnlinkCount(g, p, c, x);
    }
  }

  lemma {:induction false} UnlinkCount(g: Graph, p: Hash, c: Hash, x: Hash)
    requires p in g && c in g[p].children && c in g && p != c && (p != META ==> g[p].children[c] == 1)
    ensures Indegree(Unlink(g, p, c), x) == Indegree(g, x) - if x == c then 1 else 0
  {
    var g' := Unlink(g, p, c);
    UnlinkEdges(g, p, c, META, x);
    forall q | q in g ensures q in Parents(g', x) <==> q in Parents(g, x) && !(q == p && x == c) {
      UnlinkEdges(g, p, c, q, x);
    }
    if x == c && p != META {
      assert Parents(g', x) == Parents(g, x) - {p};
    } else {
      assert Parents(g', x) == Parents(g, x);
    }
  }

  /** Cutting the reference to a committed child changes no count. */
  lemma {:induction false} CutOk(g: Graph, p: Hash, c: Hash, rank: Hash -> nat)
    requires RefOk(g, rank) && p in g && c in g[p].children && c !in g
    ensures RefOk(Cut(g, p, c), rank)
  {
    var g' := Cut(g, p, c);
    assert LinkOk(g, p, c);
    forall q, x | q in g' && x in g'[q].children ensures LinkOk(g', q, x) { assert LinkOk(g, q, x); }
    forall x | x in g' ensures CountOk(g', x) {
      assert CountOk(g, x);
      assert Parents(g', x) == Parents(g, x);
    }
  }

  /** A count is zero exactly when no cached node has the child. */
  lemma {:induction false} Unreferenced(g: Graph, c: Hash)
    requires Linked(g) && META in g
    ensures Indegree(g, c) >= 0
    ensures Indegree(g, c) == 0 <==> forall p :: p in g ==> c !in g[p].children
  {
    if c in g[META].children { assert LinkOk(g, META, c); }
    if Indegree(g, c) == 0 {
      assert Parents(g, c) == {};
      forall p | p in g ensures c !in g[p].children { assert p != META ==> p !in Parents(g, c); }
    }
    if forall p :: p in g ==> c !in g[p].children { assert Parents(g, c) == {}; }
  }

  /** A node that nobody references and that references nobody can go. */
  lemma {:induction false} DropOk(g: Graph, c: Hash, rank: Hash -> nat)
    requires RefOk(g, rank) && c in g && c != META && g[c].parents == 0 && g[c].children == map[]
    ensures RefOk(g - {c}, rank)
  {
    var g' := g - {c};
    assert CountOk(g, c);
    Unreferenced(g, c);
    forall p, x | p in g' && x in g'[p].children ensures LinkOk(g', p, x) { assert LinkOk(g, p, x); }
    forall x | x in g' ensures CountOk(g', x) {
      assert CountOk(g, x);
      DropCount(g, c, x);
    }
  }

  lemma {:induction false} DropCount(g: Graph, c: Hash, x: Hash)
    requires c in g && g[c].children == map[] && c != META
    ensures Indegree(g - {c}, x) == Indegree(g, x)
  {
    assert Parents(g - {c}, x) == Parents(g, x);
  }

  lemma {:induction false} DropSize(g: Graph, c: Hash)
    requires c in g && c != META
    ensures SizeOf(g - {c}) == SizeOf(g) - HASH_LENGTH - |g[c].blob|
  {
    var g' := g - {c};
    SumRemove(g.Keys - {META}, h => Bytesize(g, h), c);
    assert g.Keys - {META} - {c} == g'.Keys - {META};
    SumSame(g'.Keys - {META}, h => Bytesize(g, h), h => Bytesize(g', h));
  }

  lemma {:induction false} SizeSame(g: Graph, g': Graph)
    requires g.Keys == g'.Keys && forall h :: h in g ==> g[h].blob == g'[h].blob
    ensures SizeOf(g) == SizeOf(g')
  {
    SumSame(g.Keys - {META}, h => Bytesize(g, h), h => Bytesize(g', h));
  }

  // ---------------------------------------------------------------------------
  // Reachability
  // ---------------------------------------------------------------------------

  /** The cached nodes reached from `h` through cached nodes. */
  ghost function Reach(g: Graph, h: Hash, rank: Hash -> nat): set<Hash>
    requires Acyclic(g, rank)
    decreases rank(h)
  {
    if h !in g then {}
    else {h} + (set c, x | c in g[h].children && x in Reach(g, c, rank) :: x)
  }

  /** Nodes nothing references: the meta-root, and nodes inserted but not referenced yet. */
  ghost function Roots(g: Graph): set<Hash> {
    set h | h in g && g[h].parents == 0
  }

  ghost function Live(g: Graph, roots: set<Hash>, rank: Hash -> nat): set<Hash>
    requires Acyclic(g, rank)
  {
    set r, x | r in roots && x in Reach(g, r, rank) :: x
  }

  lemma {:induction false} ReachStep(g: Graph, h: Hash, p: Hash, c: Hash, rank: Hash -> nat)
    requires Acyclic(g, rank) && p in Reach(g, h, rank) && p in g && c in g[p].children && c in g
    ensures c in Reach(g, h, rank)
    decreases rank(h)
  {
    if p == h {
      assert c in Reach(g, c, rank);
    } else {
      var d :| d in g[h].children && p in Reach(g, d, rank);
      ReachStep(g, d, p, c, rank);
    }
  }

  /** A set that holds `h` and the cached children of its members holds all that `h` reaches. */
  lemma {:induction false} ReachInside(g: Graph, h: Hash, s: set<Hash>, rank: Hash -> nat)
    requires Acyclic(g, rank) && (h in g ==> h in s)
    requires forall p, c :: p in s && p in g && c in g[p].children && c in g ==> c in s
    ensures Reach(g, h, rank) <= s
    decreases rank(h)
  {
    if h in g {
      forall c | c in g[h].children ensures Reach(g, c, rank) <= s { ReachInside(g, c, s, rank); }
    }
  }

  /** With exact counts and no cycles, every cached node is reached from some unreferenced one. */
  lemma {:induction false} AllLive(g: Graph, h: Hash, rank: Hash -> nat)
    requires RefOk(g, rank) && h in g
    ensures h in Live(g, Roots(g), rank)
    decreases MaxRank(g, rank) - rank(h)
  {
    if g[h].parents == 0 {
      assert h in Reach(g, h, rank);
    } else {
      assert CountOk(g, h);
      Unreferenced(g, h);
      var p :| p in g && h in g[p].children;
      assert LinkOk(g, p, h);
      RankBound(g, p, rank);
      RankBound(g, h, rank);
      AllLive(g, p, rank);
      var r :| r in Roots(g) && p in Reach(g, r, rank);
      ReachStep(g, r, p, h, rank);
    }
  }

  ghost function MaxRank(g: Graph, rank: Hash -> nat): int {
    Sum(g.Keys, h => rank(h))
  }

  lemma {:induction false} RankBound(g: Graph, h: Hash, rank: Hash -> nat)
    requires h in g
    ensures rank(h) <= MaxRank(g, rank)
  {
    SumNonNegative(g.Keys, x => rank(x));
  }

  /** `g'` is what is left of `g`: fewer nodes, with the same references. */
  ghost predicate Survives(g: Graph, g': Graph) {
    forall h :: h in g' ==> h in g && g'[h].children == g[h].children && g'[h].blob == g[h].blob
  }

  /** What is left references nothing that was taken away. */
  ghost predicate Whole(g: Graph, g': Graph) {
    forall p, c {:trigger c in g'[p].children} :: p in g' && c in g'[p].children && c in g ==> c in g'
  }

  /**
   Exact garbage collection.  Let `g` be the graph with one reference cut and `g'` what the
   cascade leaves: nodes removed, references unchanged, counts exact, and no node left
   unreferenced that was referenced before.  Then exactly the nodes that are still reachable
   from the unreferenced nodes are left.
   */
  lemma {:induction false} GarbageExact(g: Graph, g': Graph, roots: set<Hash>, rank: Hash -> nat)
    requires Acyclic(g, rank) && RefOk(g', rank) && Survives(g, g') && Whole(g, g') && Roots(g') == roots
    ensures g'.Keys == Live(g, roots, rank)
  {
    forall h | h in g' ensures h in Live(g, roots, rank) { LeftIsLive(g, g', h, rank); }
    LiveIsLeft(g, g', roots, rank);
    SameSet(g'.Keys, Live(g, roots, rank));
  }

  lemma {:induction false} SameSet(s: set<Hash>, t: set<Hash>)
    requires s <= t && t <= s
    ensures s == t
  {
  }

  lemma {:induction false} LeftIsLive(g: Graph, g': Graph, h: Hash, rank: Hash -> nat)
    requires Acyclic(g, rank) && RefOk(g', rank) && Survives(g, g') && Whole(g, g') && h in g'
    ensures h in Live(g, Roots(g'), rank)
  {
    AllLive(g', h, rank);
    var r :| r in Roots(g') && h in Reach(g', r, rank);
    ReachSame(g, g', r, rank);
  }

  lemma {:induction false} LiveIsLeft(g: Graph, g': Graph, roots: set<Hash>, rank: Hash -> nat)
    requires Acyclic(g, rank) && Survives(g, g') && Whole(g, g') && roots <= g'.Keys
    ensures Live(g, roots, rank) <= g'.Keys
  {
    forall r | r in roots ensures Reach(g, r, rank) <= g'.Keys {
      ReachInside(g, r, g'.Keys, rank);
    }
  }

  lemma {:induction false} ReachSame(g: Graph, g': Graph, h: Hash, rank: Hash -> nat)
    requires Acyclic(g, rank) && Acyclic(g', rank) && Survives(g, g') && Whole(g, g') && (h in g ==> h in g')
    ensures Reach(g', h, rank) == Reach(g, h, rank)
    decreases rank(h)
  {
    if h in g' {
      forall c | c in g'[h].children ensures Reach(g', c, rank) == Reach(g, c, rank) {
        ReachSame(g, g', c, rank);
      }
    }
  }

  /** If every node is reached from the meta-root, the meta-root is the only unreferenced node. */
  lemma {:induction false} OnlyMetaRoot(g: Graph, rank: Hash -> nat)
    requires RefOk(g, rank) && g.Keys == Reach(g, META, rank)
    ensures Roots(g) == {META}
  {
    forall h | h in g ensures g[h].parents == 0 <==> h == META {
      assert CountOk(g, h);
      Unreferenced(g, h);
      if h != META {
        ReachedIsReferenced(g, META, h, rank);
      } else {
        forall p, c | p in g && c in g[p].children ensures c != META { assert LinkOk(g, p, c); }
      }
    }
  }

  lemma {:induction false} ReachedIsReferenced(g: Graph, h: Hash, x: Hash, rank: Hash -> nat)
    requires Acyclic(g, rank) && x in Reach(g, h, rank) && x != h
    ensures exists p :: p in g && x in g[p].children
    decreases rank(h)
  {
    var c :| c in g[h].children && x in Reach(g, c, rank);
    if x != c { ReachedIsReferenced(g, c, x, rank); }
  }

  // ---------------------------------------------------------------------------
  // Inserting and referencing
  // ---------------------------------------------------------------------------

  /**
   A new node starts with no references, so its count is exact exactly when no cached node still
   holds a reference to an earlier, committed node of that hash.
   */
  lemma {:induction false} InsertOk(g: Graph, h: Hash, blob: Bytes, rank: Hash -> nat)
    requires RefOk(g, rank) && h !in g
    ensures RefOk(g[h := CachedNode(blob, 0, map[])], rank) <==> forall p :: p in g ==> h !in g[p].children
    ensures SizeOf(g[h := CachedNode(blob, 0, map[])]) == SizeOf(g) + HASH_LENGTH + |blob|
  {
    var g' := g[h := CachedNode(blob, 0, map[])];
    assert g' - {h} == g;
    forall p, c | p in g' && c in g'[p].children ensures LinkOk(g', p, c) { assert LinkOk(g, p, c); }
    forall x | x in g' ensures x != h ==> CountOk(g', x) {
      if x != h { assert CountOk(g, x); }
      DropCount(g', h, x);
    }
    Unreferenced(g, h);
    DropCount(g', h, h);
    assert CountOk(g', h) <==> forall p :: p in g ==> h !in g[p].children;
    DropSize(g', h);
  }

  /** The graph with one more reference from `p` to `c`. */
  function Link(g: Graph, p: Hash, c: Hash): Graph
    requires p in g && c in g
  {
    var g1 := g[c := g[c].(parents := g[c].parents + 1)];
    g1[p := g1[p].(children := g1[p].children[c := Edge(g, p, c) + 1])]
  }

  /** Taking the reference away again gives the graph back. */
  lemma {:induction false} LinkUnlink(g: Graph, p: Hash, c: Hash, rank: Hash -> nat)
    requires RefOk(g, rank) && p in g && c in g && c != META && rank(c) < rank(p)
    ensures c in Link(g, p, c)[p].children && Unlink(Link(g, p, c), p, c) == g
  {
    var g1 := Link(g, p, c);
    if c in g[p].children { assert LinkOk(g, p, c); }
    assert Dec(g1[p].children, c) == g[p].children;
  }

  /** A new reference from the meta-root, or a first one from another node, keeps every count exact. */
  lemma {:induction false} LinkKeeps(g: Graph, p: Hash, c: Hash, rank: Hash -> nat)
    requires RefOk(g, rank) && p in g && c in g && c != META && rank(c) < rank(p) && (p == META || c !in g[p].children)
    ensures RefOk(Link(g, p, c), rank)
  {
    var g' := Link(g, p, c);
    LinkEdges(g, p, c);
    forall q, x | q in g' && x in g'[q].children ensures LinkOk(g', q, x) {
      if x in g[q].children { assert LinkOk(g, q, x); }
    }
    forall x | x in g' ensures CountOk(g', x) {
      assert CountOk(g, x);
      LinkCount(g, p, c, x);
    }
  }

  lemma {:induction false} LinkCount(g: Graph, p: Hash, c: Hash, x: Hash)
    requires p in g && c in g && p != c && (p == META || c !in g[p].children)
    ensures Indegree(Link(g, p, c), x) == Indegree(g, x) + if x == c then 1 else 0
  {
    LinkEdges(g, p, c);
    if x == c && p != META {
      assert Parents(Link(g, p, c), x) == Parents(g, x) + {p};
    } else {
      assert Parents(Link(g, p, c), x) == Parents(g, x);
    }
  }

  lemma {:induction false} LinkEdges(g: Graph, p: Hash, c: Hash)
    requires p in g && c in g && p != c
    ensures Link(g, p, c).Keys == g.Keys
    ensures forall q, x :: q in g ==> (x in Link(g, p, c)[q].children <==> x in g[q].children || (q == p && x == c))
    ensures forall q, x :: Edge(Link(g, p, c), q, x) == Edge(g, q, x) + if q == p && x == c then 1 else 0
  {
  }

  // ---------------------------------------------------------------------------
  // What a dereference may touch
  // ---------------------------------------------------------------------------

  /** Only nodes ranked below `p` go or lose references, only `p` loses children, and the unreferenced nodes stay the same. */
  ghost predicate Collected(g: Graph, g': Graph, p: Hash, rank: Hash -> nat) {
    && (forall h :: h in g' ==> h in g && g'[h].blob == g[h].blob && g'[h].children.Keys <= g[h].children.Keys)
    && (forall h :: h in g' && h != p ==> g'[h].children == g[h].children)
    && (forall h :: h in g && rank(h) >= rank(p) ==> h in g' && g'[h].parents == g[h].parents)
    && (forall h :: h in g' && g'[h].parents == 0 ==> g[h].parents == 0)
    && (forall h :: h in g && g[h].parents == 0 ==> h in g' && g'[h].parents == 0)
    && Whole(g, g')
  }

  lemma {:induction false} CollectedTrans(g: Graph, g1: Graph, g2: Graph, p: Hash, rank: Hash -> nat)
    requires Collected(g, g1, p, rank) && Collected(g1, g2, p, rank)
    ensures Collected(g, g2, p, rank)
  {
    forall q, c | q in g2 && c in g2[q].children && c in g ensures c in g2 {
      assert c in g1[q].children;
    }
  }

  lemma {:induction false} ReferencedIsCounted(g: Graph, p: Hash, c: Hash, rank: Hash -> nat)
    requires RefOk(g, rank) && p in g && c in g[p].children
    ensures c != META && rank(c) < rank(p) && (c in g ==> g[c].parents > 0)
    ensures Edge(g, p, c) >= 1 && (p != META ==> Edge(g, p, c) == 1)
  {
    assert LinkOk(g, p, c);
    if c in g {
      assert CountOk(g, c);
      Unreferenced(g, c);
    }
  }

  lemma {:induction false} DecLast(g: Graph, p: Hash, c: Hash)
    requires Linked(g) && p in g && p != META && c in g[p].children
    ensures Dec(g[p].children, c) == g[p].children - {c}
  {
    assert LinkOk(g, p, c);
  }

  lemma {:induction false} UnlinkNode(g: Graph, p: Hash, c: Hash, h: Hash)
    requires p in g && c in g[p].children && c in g && p != c && h in g
    ensures var n := Unlink(g, p, c)[h];
            && n.blob == g[h].blob
            && n.parents == g[h].parents - (if h == c then 1 else 0)
            && n.children == if h == p then Dec(g[p].children, c) else g[h].children
  {
  }

  lemma {:induction false} CutCollected(g: Graph, p: Hash, c: Hash, rank: Hash -> nat)
    requires p in g && c in g[p].children && c !in g
    ensures Collected(g, Cut(g, p, c), p, rank)
  {
  }

  /** Only the child's count changes when the edge to it goes. */
  lemma {:induction false} UnlinkCollected(g: Graph, p: Hash, c: Hash, rank: Hash -> nat)
    requires p in g && c in g[p].children && c in g && rank(c) < rank(p) && g[c].parents > 1
    ensures Collected(g, Unlink(g, p, c), p, rank)
  {
    var g' := Unlink(g, p, c);
    assert g'.Keys == g.Keys;
    forall h | h in g
      ensures g'[h].blob == g[h].blob && (h != p ==> g'[h].children == g[h].children) && g'[h].children.Keys <= g[h].children.Keys
      ensures (h != c ==> g'[h].parents == g[h].parents) && (g'[h].parents == 0 <==> g[h].parents == 0)
    {
      UnlinkNode(g, p, c, h);
    }
  }

  /** The whole cascade: unlink, empty the child, drop it. */
  lemma {:induction false} CascadeCollected(g: Graph, g2: Graph, p: Hash, c: Hash, rank: Hash -> nat)
    requires p in g && c in g[p].children && c in g && rank(c) < rank(p) && g[c].parents == 1 && c in g2
    requires RefOk(g2, rank) && Collected(Unlink(g, p, c), g2, c, rank)
    ensures p in g2 - {c} && (g2 - {c})[p].children == Dec(g[p].children, c)
    ensures Collected(g, g2 - {c}, p, rank)
  {
    var g1, g' := Unlink(g, p, c), g2 - {c};
    assert g1.Keys == g.Keys;
    forall h | h in g
      ensures g1[h].blob == g[h].blob && g1[h].parents == g[h].parents - (if h == c then 1 else 0)
      ensures g1[h].children == if h == p then Dec(g[p].children, c) else g[h].children
    {
      UnlinkNode(g, p, c, h);
    }
    CascadeWhole(g, g1, g2, c, rank);
  }

  lemma {:induction false} CascadeWhole(g: Graph, g1: Graph, g2: Graph, c: Hash, rank: Hash -> nat)
    requires RefOk(g2, rank) && g1.Keys == g.Keys && Whole(g1, g2) && c in g2 && g2[c].parents == 0
    ensures Whole(g, g2 - {c})
  {
    assert CountOk(g2, c);
    Unreferenced(g2, c);
  }

  lemma {:induction false} CutAcyclic(g: Graph, p: Hash, c: Hash, rank: Hash -> nat)
    requires Acyclic(g, rank) && p in g && c in g[p].children
    ensures Acyclic(Cut(g, p, c), rank)
  {
  }

  lemma {:induction false} EmptyOk(rank: Hash -> nat)
    ensures var g: Graph := map[META := CachedNode([], 0, map[])]; RefOk(g, rank) && SizeOf(g) == 0
  {
    var g: Graph := map[META := CachedNode([], 0, map[])];
    assert Parents(g, META) == {};
    assert g.Keys - {META} == {};
  }

  // ---------------------------------------------------------------------------
  // Sizes
  // ---------------------------------------------------------------------------

  /** A mention of a graph, which opens what is said about its size below. */
  predicate Weigh(g: Graph, n: int) {
    true
  }

  /** `size` is the size of the cache; opened only where the graph is weighed. */
  ghost predicate Sized(size: int, g: Graph) {
    forall n {:trigger Weigh(g, n)} :: Weigh(g, n) ==> size == SizeOf(g)
  }

  lemma {:induction false} OpenSized(size: int, g: Graph)
    requires Sized(size, g)
    ensures size == SizeOf(g)
  {
    assert Weigh(g, 0);
  }

  lemma {:induction false} SizedSame(size: int, g: Graph, g': Graph)
    requires Sized(size, g) && g.Keys == g'.Keys && forall h :: h in g ==> g[h].blob == g'[h].blob
    ensures Sized(size, g')
  {
    OpenSized(size, g);
    SizeSame(g, g');
  }

  lemma {:induction false} SizedDrop(size: int, g: Graph, c: Hash)
    requires Sized(size, g) && c in g && c != META
    ensures Sized(size - HASH_LENGTH - |g[c].blob|, g - {c})
  {
    OpenSized(size, g);
    DropSize(g, c);
  }

  lemma {:induction false} SizedInsert(size: int, g: Graph, h: Hash, blob: Bytes, rank: Hash -> nat)
    requires Sized(size, g) && RefOk(g, rank) && h !in g
    ensures Sized(size + HASH_LENGTH + |blob|, g[h := CachedNode(blob, 0, map[])])
  {
    OpenSized(size, g);
    InsertOk(g, h, blob, rank);
  }

  lemma {:induction false} SizedEmpty(rank: Hash -> nat)
    ensures Sized(0, map[META := CachedNode([], 0, map[])])
  {
    EmptyOk(rank);
  }
}
