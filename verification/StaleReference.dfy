/**
 A run of the trie node cache after which a count is wrong (trie/database.go): a node is committed
 while another cached node still references it, and is then inserted again.
 */
module StaleReference {
  import opened Encoding
  import opened NodeGraph
  import opened NodeCommit
  import opened NodeDatabase

  /** `p` references `c`, the meta-root references `p`, and both are cached. */
  method Cached(c: Hash, p: Hash, cblob: Bytes, pblob: Bytes, rank: Hash -> nat) returns (db: Database)
    requires rank(c) < rank(p) < rank(META)
    ensures fresh(db) && db.Valid() && db.rank == rank && db.nodes.Keys == {META, c, p}
    ensures db.nodes[c].children == map[] && c in db.nodes[p].children
  {
    db := new Database(map[], 100, rank);
    db.Insert(c, cblob);
    db.Insert(p, pblob);
    db.Reference(c, p);
    db.Reference(p, META);
  }

  lemma {:induction false} ReachAlone(g: Graph, c: Hash, rank: Hash -> nat)
    requires Acyclic(g, rank) && c in g && g[c].children == map[]
    ensures Reach(g, c, rank) == {c}
  {
  }

  /** Committing `c` and inserting it again leaves it with a count of 0, while `p` still references it. */
  method Run(c: Hash, p: Hash, cblob: Bytes, pblob: Bytes, rank: Hash -> nat) returns (db: Database)
    requires rank(c) < rank(p) < rank(META)
    ensures c in db.nodes && db.nodes[c].parents == 0 && p in db.nodes && c in db.nodes[p].children && !db.Valid()
  {
    db := Cached(c, p, cblob, pblob, rank);
    ReachAlone(db.nodes, c, rank);
    ghost var _ := db.Commit(c);
    assert p in db.nodes && c !in db.nodes && c in db.nodes[p].children;
    db.Insert(c, cblob);
  }
}
