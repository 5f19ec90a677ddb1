/**
 The trie node cache of trie/database.go: reference-counted nodes with a cascading
 dereference, and a two-phase commit that moves a trie from memory to disk.
 */
module NodeDatabase {
  import opened Encoding
  import opened NodeGraph
  import opened NodeCommit

  class Database {
    var nodes: Graph
    var nodesSize: int
    var disk: map<Hash, Bytes>
    var batch: Puts
    const ideal: nat
    ghost const rank: Hash -> nat

    ghost predicate Valid()
      reads this`nodes, this`nodesSize
    {
      RefOk(nodes, rank) && Sized(nodesSize, nodes)
    }

    constructor (disk: map<Hash, Bytes>, ideal: nat, ghost rank: Hash -> nat)
      ensures Valid() && nodes == map[META := CachedNode([], 0, map[])] && this.disk == disk && batch == [] && this.rank == rank
    {
      nodes := map[META := CachedNode([], 0, map[])];
      nodesSize, this.disk, batch, this.ideal, this.rank := 0, disk, [], ideal, rank;
      new;
      EmptyOk(rank);
      SizedEmpty(rank);
    }

    method Node(h: Hash) returns (blob: seq<Bytes>)
      ensures blob == Visible(nodes, disk, h)
    {
      if h in nodes { return [nodes[h].blob]; }
      if h in disk { return [disk[h]]; }
      return [];
    }

    /** The counts stay exact unless a cached node still references a committed node of this hash. */
    method Insert(h: Hash, blob: Bytes)
      requires Valid()
      modifies this`nodes, this`nodesSize
      ensures Sized(nodesSize, nodes)
      ensures Valid() <==> h in old(nodes) || forall p :: p in old(nodes) ==> h !in old(nodes)[p].children
      ensures nodes == if h in old(nodes) then old(nodes) else old(nodes)[h := CachedNode(blob, 0, map[])]
    {
      if h in nodes { return; }
      InsertOk(nodes, h, blob, rank);
      SizedInsert(nodesSize, nodes, h, blob, rank);
      nodes := nodes[h := CachedNode(blob, 0, map[])];
      nodesSize := nodesSize + HASH_LENGTH + |blob|;
    }

    method Reference(child: Hash, parent: Hash)
      requires Valid() && child != META && (child in nodes ==> parent in nodes && rank(child) < rank(parent))
      modifies this`nodes
      ensures Valid()
      ensures nodes == if child in old(nodes) && (parent == META || child !in old(nodes)[parent].children)
                       then Link(old(nodes), parent, child) else old(nodes)
    {
      if child !in nodes { return; }
      if child in nodes[parent].children && parent != META { return; }
      LinkKeeps(nodes, parent, child, rank);
      SizedSame(nodesSize, nodes, Link(nodes, parent, child));
      nodes := nodes[child := nodes[child].(parents := nodes[child].parents + 1)];
      var count := if child in nodes[parent].children then nodes[parent].children[child] else 0;
      nodes := nodes[parent := nodes[parent].(children := nodes[parent].children[child := count + 1])];
      assert nodes == Link(old(nodes), parent, child);
    }

    /**
     Removing a reference leaves exactly the nodes that are still reachable from an unreferenced
     node, with their blobs and references as they were.
     */
    method Dereference(child: Hash, parent: Hash)
      requires Valid() && parent in nodes && child in nodes[parent].children
      modifies this`nodes, this`nodesSize
      ensures Valid() && Acyclic(Cut(old(nodes), parent, child), rank)
      ensures nodes.Keys == Live(Cut(old(nodes), parent, child), Roots(old(nodes)), rank)
      ensures Survives(Cut(old(nodes), parent, child), nodes)
    {
      ghost var g := nodes;
      CutAcyclic(g, parent, child, rank);
      DereferenceNode(child, parent);
      CollectedExactly(g, nodes, parent, child, rank);
    }

    method DereferenceNode(child: Hash, parent: Hash)
      requires Valid() && parent in nodes && child in nodes[parent].children
      modifies this`nodes, this`nodesSize
      ensures Valid() && Collected(old(nodes), nodes, parent, rank)
      ensures parent in nodes && nodes[parent].children == Dec(old(nodes)[parent].children, child)
      decreases rank(parent), 1
    {
      ghost var g := nodes;
      ReferencedIsCounted(g, parent, child, rank);
      nodes := Cut(nodes, parent, child);
      if child !in nodes {
        CutOk(g, parent, child, rank);
        SizedSame(nodesSize, g, nodes);
        CutCollected(g, parent, child, rank);
        return;
      }
      nodes := nodes[child := nodes[child].(parents := nodes[child].parents - 1)];
      UnlinkOk(g, parent, child, rank);
      SizedSame(nodesSize, g, nodes);
      UnlinkNode(g, parent, child, parent);
      UnlinkNode(g, parent, child, child);
      if nodes[child].parents == 0 {
        ghost var g2 := Release(child);
        CascadeCollected(g, g2, parent, child, rank);
      } else {
        UnlinkCollected(g, parent, child, rank);
      }
    }

    /** An unreferenced node lets go of its children and leaves; `g2` is the graph just before it leaves. */
    method Release(p: Hash) returns (ghost g2: Graph)
      requires Valid() && p in nodes && p != META && nodes[p].parents == 0
      modifies this`nodes, this`nodesSize
      ensures Valid() && p in g2 && nodes == g2 - {p}
      ensures RefOk(g2, rank) && Collected(old(nodes), g2, p, rank)
      decreases rank(p), 3
    {
      DereferenceChildren(p);
      g2 := nodes;
      DropOk(nodes, p, rank);
      SizedDrop(nodesSize, nodes, p);
      nodesSize := nodesSize - HASH_LENGTH - |nodes[p].blob|;
      nodes := nodes - {p};
    }

    /** The cascade: all references a dying node holds are removed, in any order. */
    method DereferenceChildren(p: Hash)
      requires Valid() && p in nodes && p != META
      modifies this`nodes, this`nodesSize
      ensures Valid() && Collected(old(nodes), nodes, p, rank)
      ensures p in nodes && nodes[p].children == map[]
      decreases rank(p), 2
    {
      var rest := nodes[p].children.Keys;
      EmptyCollected(nodes, p, rank);
      while rest != {}
        invariant Valid() && Collected(old(nodes), nodes, p, rank)
        invariant p in nodes && nodes[p].children.Keys == rest
        decreases |rest|
      {
        ghost var g := nodes;
        var h :| h in rest;
        rest := rest - {h};
        DecLast(g, p, h);
        ReferencedIsCounted(g, p, h, rank);
        DereferenceNode(h, p);
        CollectedTrans(old(nodes), g, nodes, p, rank);
      }
    }

    // -------------------------------------------------------------------------
    // Commit
    // -------------------------------------------------------------------------

    /** Moves the batch to disk and empties it. */
    method WriteBatch()
      modifies this`disk, this`batch
      ensures disk == Apply(old(disk), old(batch)) && batch == []
    {
      var i := 0;
      while i < |batch|
        modifies this`disk
        invariant 0 <= i <= |batch|
        invariant Apply(disk, batch[i..]) == Apply(old(disk), batch)
      {
        assert batch[i..][1..] == batch[i + 1..];
        disk := disk[batch[i].0 := batch[i].1];
        i := i + 1;
      }
      batch := [];
    }

    /**
     Writes what `h` reaches, children before parents, flushing whenever the batch is large
     enough.  Readers see no difference at any flush.
     */
    method CommitNode(h: Hash) returns (ghost puts: Puts)
      requires Acyclic(nodes, rank) && Cached(nodes, batch)
      modifies this`disk, this`batch
      ensures Apply(disk, batch) == Apply(Apply(old(disk), old(batch)), puts)
      ensures Written(puts, nodes, Reach(nodes, h, rank)) && ChildrenFirst(puts, nodes)
      ensures Cached(nodes, batch) && SeenAlike(nodes, old(disk), disk)
      decreases rank(h), 1
    {
      if h !in nodes { return []; }
      puts := CommitChildren(h);
      batch := batch + [(h, nodes[h].blob)];
      ApplyConcat(disk, batch[..|batch| - 1], [(h, nodes[h].blob)]);
      ApplyConcat(Apply(old(disk), old(batch)), puts, [(h, nodes[h].blob)]);
      WrittenSelf(puts, nodes, h, rank);
      puts := puts + [(h, nodes[h].blob)];
      if ValueSize(batch) >= ideal {
        ApplyUnseen(nodes, disk, batch);
        WriteBatch();
      }
    }

    method CommitChildren(h: Hash) returns (ghost puts: Puts)
      requires Acyclic(nodes, rank) && h in nodes && Cached(nodes, batch)
      modifies this`disk, this`batch
      ensures Apply(disk, batch) == Apply(Apply(old(disk), old(batch)), puts)
      ensures Written(puts, nodes, ReachAll(nodes, nodes[h].children.Keys, rank)) && ChildrenFirst(puts, nodes)
      ensures Cached(nodes, batch) && SeenAlike(nodes, old(disk), disk)
      decreases rank(h), 0
    {
      puts := [];
      var rest := nodes[h].children.Keys;
      ghost var done: set<Hash> := {};
      while rest != {}
        invariant rest + done == nodes[h].children.Keys
        invariant Apply(disk, batch) == Apply(Apply(old(disk), old(batch)), puts)
        invariant Written(puts, nodes, ReachAll(nodes, done, rank)) && ChildrenFirst(puts, nodes)
        invariant Cached(nodes, batch) && SeenAlike(nodes, old(disk), disk)
        decreases |rest|
      {
        var c :| c in rest;
        rest := rest - {c};
        ghost var more := CommitNode(c);
        ApplyConcat(Apply(old(disk), old(batch)), puts, more);
        WrittenJoin(puts, more, nodes, done, c, rank);
        puts, done := puts + more, done + {c};
      }
      assert done == nodes[h].children.Keys;
    }

    /** Takes what `h` reaches out of the cache. */
    method Uncache(h: Hash)
      requires Clear(nodes, h, rank) && Sized(nodesSize, nodes)
      modifies this`nodes, this`nodesSize
      ensures Gone(old(nodes), {h}, nodes, rank) && Sized(nodesSize, nodes)
      decreases rank(h), 1
    {
      ghost var g := nodes;
      GoneNone(g, h, rank);
      if h !in nodes { return; }
      UncacheChildren(h);
      GoneSelf(g, h, nodes, rank);
      SizedDrop(nodesSize, nodes, h);
      nodesSize := nodesSize - HASH_LENGTH - |nodes[h].blob|;
      nodes := nodes - {h};
    }

    method UncacheChildren(h: Hash)
      requires Clear(nodes, h, rank) && h in nodes && Sized(nodesSize, nodes)
      modifies this`nodes, this`nodesSize
      ensures Gone(old(nodes), old(nodes)[h].children.Keys, nodes, rank) && Sized(nodesSize, nodes)
      decreases rank(h), 0
    {
      ghost var g := nodes;
      GoneNone(g, h, rank);
      var rest := nodes[h].children.Keys;
      ghost var done: set<Hash> := {};
      while rest != {}
        invariant rest + done == g[h].children.Keys
        invariant Gone(g, done, nodes, rank) && Sized(nodesSize, nodes)
        decreases |rest|
      {
        var c :| c in rest;
        rest := rest - {c};
        ghost var g1 := nodes;
        ClearChild(g, h, done, c, g1, rank);
        Uncache(c);
        GoneJoin(g, done, c, g1, nodes, rank);
        done := done + {c};
      }
      assert done == g[h].children.Keys;
    }

    /**
     Two-phase commit: the whole trie goes to disk, children before parents, and only then out of
     the cache.  No reader can tell, before, between or after, and the counts of everything that
     stays cached remain exact.
     */
    method Commit(root: Hash) returns (ghost puts: Puts)
      requires Valid() && root != META
      modifies this
      ensures Valid() && nodes == old(nodes) - Reach(old(nodes), root, rank)
      ensures disk == Apply(old(disk), puts)
      ensures Written(puts, old(nodes), Reach(old(nodes), root, rank)) && ChildrenFirst(puts, old(nodes))
      ensures forall x :: Visible(nodes, disk, x) == Visible(old(nodes), old(disk), x)
    {
      batch := [];
      puts := CommitNode(root);
      WriteBatch();
      forall x ensures Visible(nodes - Reach(nodes, root, rank), disk, x) == Visible(nodes, old(disk), x) {
        CommitInvisible(nodes, old(disk), puts, Reach(nodes, root, rank), x);
      }
      ReachClosed(nodes, root, rank);
      MetaNotReached(nodes, root, rank);
      MinusOk(nodes, Reach(nodes, root, rank), rank);
      ghost var g := nodes;
      Uncache(root);
      GoneOne(g, root, nodes, rank);
    }
  }

  lemma {:induction false} CollectedExactly(g: Graph, g': Graph, p: Hash, c: Hash, rank: Hash -> nat)
    requires RefOk(g, rank) && p in g && c in g[p].children && Acyclic(Cut(g, p, c), rank)
    requires RefOk(g', rank) && Collected(g, g', p, rank) && p in g' && g'[p].children == Dec(g[p].children, c)
    ensures Survives(Cut(g, p, c), g') && g'.Keys == Live(Cut(g, p, c), Roots(g), rank)
  {
    assert Roots(g') == Roots(g);
    assert Whole(Cut(g, p, c), g');
    GarbageExact(Cut(g, p, c), g', Roots(g), rank);
  }

  lemma {:induction false} EmptyCollected(g: Graph, p: Hash, rank: Hash -> nat)
    ensures Collected(g, g, p, rank)
  {
  }

  /** While every cached node is reached from the meta-root, dropping a trie frees exactly what only that trie needed. */
  lemma {:induction false} MetaRootKeepsExactly(g: Graph, g': Graph, child: Hash, parent: Hash, rank: Hash -> nat)
    requires RefOk(g, rank) && g.Keys == Reach(g, META, rank) && parent in g && child in g[parent].children
    requires Acyclic(Cut(g, parent, child), rank) && g'.Keys == Live(Cut(g, parent, child), Roots(g), rank)
    ensures g'.Keys == Reach(Cut(g, parent, child), META, rank)
  {
    OnlyMetaRoot(g, rank);
  }
}
