/**
 The hasher of trie/hasher.go: collapses a trie to its root hash bottom-up, reusing cached
 hashes, caching the ones it computes, storing nodes when a database is given and unloading
 clean nodes of old generations.  The main result is that none of this shows: the hash is the
 one computed from scratch, and the trie left behind stands for the same tree.
 */
module Hasher {
  import opened Encoding
  import opened Tree
  import opened Nodes

  /** The hasher's settings; `small` is the 32-byte test of `store`. */
  datatype Conf = Conf(gen: nat, limit: nat, small: Blob -> bool)

  /** What the parent stores, the node to keep in memory, and the database (None when only hashing). */
  datatype Hashed = Hashed(ref: Blob, node: Node, db: Option<Store>)

  datatype HashedKids = HashedKids(refs: seq<Blob>, nodes: seq<Node>, db: Option<Store>)

  predicate Hashable(n: Node) { n.Short? || n.Full? || n.HashNode? }

  /** `store` followed by the caching at the end of `hash`. */
  function Finish(blob: Blob, n: Node, db: Option<Store>, force: bool, c: Conf): Hashed
    requires n.Short? || n.Full?
  {
    var dirty := db.None? && n.flags.dirty;
    if c.small(blob) && !force then
      Hashed(blob, n.(flags := n.flags.(hash := None, dirty := dirty)), db)
    else
      var h := if n.flags.hash.Some? then n.flags.hash.value else Keccak(blob);
      var db' := if db.Some? && h !in db.value then Some(db.value[h := blob]) else db;
      Hashed(HashBlob(h), n.(flags := n.flags.(hash := Some(h), dirty := dirty)), db')
  }

  lemma {:induction false} ShortKid(n: Node, root: bool, small: Blob -> bool)
    requires n.Short? && WF(Expand(n), false) && Coherent(n, root, small)
    ensures ShortKey(n.key) && WF(Expand(n.val), HasTerm(n.key)) && Coherent(n.val, false, small)
    ensures if n.val.Value? then HasTerm(n.key) else Hashable(n.val) && !HasTerm(n.key)
  {
    match n
    case Short(key, val, flags) => assert Expand(n) == Ext(key, Expand(val));
  }

  function Hash(n: Node, db: Option<Store>, force: bool, c: Conf): Hashed
    requires Hashable(n) && WF(Expand(n), false) && Coherent(n, force, c.small)
    decreases n, 0
  {
    if n.HashNode? then Hashed(HashBlob(n.h), n, db)
    else if n.flags.hash.Some? && db.None? then Hashed(HashBlob(n.flags.hash.value), n, db)
    else if n.flags.hash.Some? && CanUnload(n.flags, c.gen, c.limit) then
      Hashed(HashBlob(n.flags.hash.value), HashNode(n.flags.hash.value), db)
    else if n.flags.hash.Some? && !n.flags.dirty then Hashed(HashBlob(n.flags.hash.value), n, db)
    else
      match n
      case Short(key, val, flags) =>
        ShortKid(n, force, c.small);
        var r := if val.Value? then Hashed(ValueBlob(val.v), val, db) else Hash(val, db, false, c);
        Finish(ShortBlob(HexToCompact(key), r.ref), Short(key, r.node, flags), r.db, force, c)
      case Full(kids, flags) =>
        assert forall i :: 0 <= i < 17 ==> Expand(n).kids[i] == Expand(kids[i]);
        var r := HashKids(kids, 16, db, c);
        var last := if kids[16].Value? then ValueBlob(kids[16].v) else NilBlob;
        Finish(FullBlob(r.refs + [last]), Full(r.nodes + [kids[16]], flags), r.db, force, c)
  }

  /** The first `k` iterations of the loop of `hashChildren` over a full node's children. */
  function HashKids(kids: seq<Node>, k: nat, db: Option<Store>, c: Conf): (r: HashedKids)
    requires k <= 16 && |kids| == 17
    requires forall i :: 0 <= i < 16 ==> WF(Expand(kids[i]), false) && Coherent(kids[i], false, c.small)
    ensures |r.refs| == k && |r.nodes| == k
    decreases kids, k
  {
    if k == 0 then HashedKids([], [], db)
    else
      var front := HashKids(kids, k - 1, db, c);
      if kids[k - 1].Nil? then HashedKids(front.refs + [NilBlob], front.nodes + [Nil], front.db)
      else
        var r := Hash(kids[k - 1], front.db, false, c);
        HashedKids(front.refs + [r.ref], front.nodes + [r.node], r.db)
  }

  /** The loop of `hashChildren`. */
  method HashChildren(kids: seq<Node>, db: Option<Store>, c: Conf) returns (collapsed: seq<Blob>, cached: seq<Node>, db': Option<Store>)
    requires |kids| == 17
    requires forall i :: 0 <= i < 16 ==> WF(Expand(kids[i]), false) && Coherent(kids[i], false, c.small)
    ensures HashedKids(collapsed, cached, db') == HashKids(kids, 16, db, c)
  {
    collapsed, cached, db' := [], [], db;
    for i := 0 to 16
      invariant HashedKids(collapsed, cached, db') == HashKids(kids, i, db, c)
    {
      if kids[i] != Nil {
        var r := Hash(kids[i], db', false, c);
        collapsed, cached, db' := collapsed + [r.ref], cached + [r.node], r.db;
      } else {
        collapsed, cached := collapsed + [NilBlob], cached + [Nil];
      }
    }
  }

  // ---------------------------------------------------------------------------
  // The database only grows, and growing it makes nothing unavailable
  // ---------------------------------------------------------------------------

  ghost predicate Grows(db: Store, db': Store) {
    forall h :: h in db ==> h in db' && db'[h] == db[h]
  }

  lemma {:induction false} AvailBlobGrows(b: Blob, db: Store, db': Store)
    requires AvailBlob(b, db) && Grows(db, db')
    ensures AvailBlob(b, db')
  {
    match b
    case ShortBlob(_, val) => AvailBlobGrows(val, db, db');
    case FullBlob(kids) =>
      forall i | 0 <= i < |kids| ensures AvailBlob(kids[i], db') { AvailBlobGrows(kids[i], db, db'); }
    case HashBlob(h) => AvailBlobGrows(h.blob, db, db');
    case _ =>
  }

  lemma {:induction false} AvailGrows(n: Node, root: bool, env: Env, env': Env)
    requires Avail(n, root, env) && Grows(env.db, env'.db) && env.small == env'.small
    ensures Avail(n, root, env')
  {
    match n
    case Nil =>
    case Value(_) =>
    case Short(_, val, flags) =>
      AvailGrows(val, false, env, env');
      CleanGrows(flags, Expand(n), root, env, env');
    case Full(kids, flags) =>
      forall i | 0 <= i < |kids| ensures Avail(kids[i], false, env') { AvailGrows(kids[i], false, env, env'); }
      CleanGrows(flags, Expand(n), root, env, env');
    case HashNode(h) => AvailBlobGrows(HashBlob(h), env.db, env'.db);
  }

  lemma {:induction false} CleanGrows(f: Flags, t: Tree, root: bool, env: Env, env': Env)
    requires Clean(f, t, root, env) && Grows(env.db, env'.db) && env.small == env'.small
    ensures Clean(f, t, root, env')
  {
    if !f.dirty {
      if root { AvailBlobGrows(HashBlob(f.hash.value), env.db, env'.db); }
      else { AvailBlobGrows(RefOf(t, env.small), env.db, env'.db); }
    }
  }

  // ---------------------------------------------------------------------------
  // Hashing is invisible
  // ---------------------------------------------------------------------------

  /** The reference of a node computed from scratch; the root is hashed even when small. */
  function TrueRef(t: Tree, force: bool, small: Blob -> bool): Blob {
    if force then HashBlob(Keccak(BlobOf(t, small))) else RefOf(t, small)
  }

  /** The database after hashing: the given one when the hasher does not write. */
  function DbAfter(r: Option<Store>, d: Store): Store {
    if r.Some? then r.value else d
  }

  /**
   `node`, with reference `ref`, is a sound replacement for a node of content `t` in `env'`.  If the
   trie is `whole`, nothing it refers to is missing from the database.
   */
  ghost predicate Replaces(ref: Blob, node: Node, t: Tree, force: bool, writing: bool, whole: bool, env': Env) {
    && ref == TrueRef(t, force, env'.small)
    && Expand(node) == t
    && Coherent(node, force, env'.small)
    && (whole ==> Avail(node, force, env') && (writing ==> AvailBlob(ref, env'.db)))
  }

  /** Hashing in `env` left a sound and grown database, and a sound replacement of the tree. */
  ghost predicate Kept(r: Hashed, t: Tree, force: bool, writing: bool, whole: bool, env: Env) {
    var env' := env.(db := DbAfter(r.db, env.db));
    && r.db.Some? == writing
    && Grows(env.db, env'.db) && StoreOk(env')
    && Replaces(r.ref, r.node, t, force, writing, whole, env')
  }

  /** Work on a node after work on its children. */
  lemma {:induction false} KeptAfter(r: Hashed, t: Tree, force: bool, writing: bool, whole: bool, env: Env, db: Option<Store>)
    requires db.Some? == writing && Grows(env.db, DbAfter(db, env.db))
    requires Kept(r, t, force, writing, whole, env.(db := DbAfter(db, env.db)))
    ensures Kept(r, t, force, writing, whole, env)
  {
    var env1 := env.(db := DbAfter(db, env.db));
    assert env1.(db := DbAfter(r.db, env1.db)) == env.(db := DbAfter(r.db, env.db));
  }

  /** A node ready for `store`: its children are hashed, `blob` is its stored form. */
  ghost predicate Ready(blob: Blob, n: Node, db: Option<Store>, force: bool, c: Conf, whole: bool, env: Env) {
    && (n.Short? || n.Full?) && WF(Expand(n), false)
    && env.small == c.small && StoreOk(env) && Coherent(n, force, c.small) && (whole ==> Avail(n, force, env))
    && blob == BlobOf(Expand(n), c.small)
    && (if db.Some? then db.value == env.db && (whole ==> AvailBlob(blob, env.db)) else n.flags.hash.None?)
  }

  lemma {:induction false} FinishStore(blob: Blob, n: Node, db: Option<Store>, force: bool, c: Conf, whole: bool, env: Env)
    requires Ready(blob, n, db, force, c, whole, env)
    ensures var r := Finish(blob, n, db, force, c);
            var env' := env.(db := DbAfter(r.db, env.db));
            && r.db.Some? == db.Some?
            && r.ref == TrueRef(Expand(n), force, c.small)
            && Grows(env.db, env'.db) && StoreOk(env')
            && (db.Some? && whole ==> AvailBlob(r.ref, env'.db) && AvailBlob(blob, env'.db))
  {
    var r := Finish(blob, n, db, force, c);
    var env' := env.(db := DbAfter(r.db, env.db));
    ExpandStored(Expand(n), false, c.small);
    assert Grows(env.db, env'.db);
    if db.Some? && whole { AvailBlobGrows(blob, env.db, env'.db); }
  }

  lemma {:induction false} Reflagged(n: Node, f: Flags)
    requires n.Short? || n.Full?
    ensures Expand(n.(flags := f)) == Expand(n)
  {
    var m := n.(flags := f);
    if n.Full? { assert Expand(m).kids == Expand(n).kids; }
  }

  lemma {:induction false} FinishSound(blob: Blob, n: Node, db: Option<Store>, force: bool, c: Conf, whole: bool, env: Env)
    requires Ready(blob, n, db, force, c, whole, env)
    ensures Kept(Finish(blob, n, db, force, c), Expand(n), force, db.Some?, whole, env)
  {
    var r := Finish(blob, n, db, force, c);
    var env' := env.(db := DbAfter(r.db, env.db));
    FinishStore(blob, n, db, force, c, whole, env);
    Reflagged(n, r.node.flags);
    assert Coherent(r.node, force, c.small);
    if whole {
      AvailGrows(n, force, env, env');
      assert Clean(r.node.flags, Expand(n), force, env');
    }
  }

  /**
   Hashing is invisible: whatever is cached, dirty, unloaded or stored, the reference returned
   is the one computed from scratch and the node kept stands for the same tree, with every
   cached hash right and nothing it refers to missing from the database.
   */
  lemma {:induction false} HashSound(n: Node, db: Option<Store>, force: bool, c: Conf, whole: bool, env: Env)
    requires Hashable(n) && WF(Expand(n), false) && env.small == c.small && StoreOk(env)
    requires Coherent(n, force, c.small) && (whole ==> Avail(n, force, env)) && (db.Some? ==> db.value == env.db)
    ensures Kept(Hash(n, db, force, c), Expand(n), force, db.Some?, whole, env)
    decreases n, 0
  {
    if !n.HashNode? && (n.flags.hash.None? || (db.Some? && !CanUnload(n.flags, c.gen, c.limit) && n.flags.dirty)) {
      if n.Short? {
        HashShort(n, db, force, c, whole, env);
      } else {
        HashFull(n, db, force, c, whole, env);
      }
    } else {
      KnownHash(n, force, whole, env);
    }
  }

  /** An unloaded node, or a node with a cached hash, needs no further work; if it is clean it may be unloaded. */
  lemma {:induction false} KnownHash(n: Node, force: bool, whole: bool, env: Env)
    requires Hashable(n) && WF(Expand(n), false) && Coherent(n, force, env.small) && (whole ==> Avail(n, force, env))
    requires n.HashNode? || n.flags.hash.Some?
    ensures var h := if n.HashNode? then n.h else n.flags.hash.value;
            var stored := n.HashNode? || !n.flags.dirty;
            && Replaces(HashBlob(h), n, Expand(n), force, stored, whole, env)
            && (stored ==> Replaces(HashBlob(h), HashNode(h), Expand(n), force, true, whole, env))
  {
    var h := if n.HashNode? then n.h else n.flags.hash.value;
    var t := Expand(n);
    assert IsInner(t);
    assert HashBlob(h) == TrueRef(t, force, env.small);
    ExpandStored(t, false, env.small);
  }

  lemma {:induction false} HashShort(n: Node, db: Option<Store>, force: bool, c: Conf, whole: bool, env: Env)
    requires n.Short? && WF(Expand(n), false) && env.small == c.small && StoreOk(env)
    requires Coherent(n, force, c.small) && (whole ==> Avail(n, force, env)) && (db.Some? ==> db.value == env.db)
    requires n.flags.hash.None? || (db.Some? && !CanUnload(n.flags, c.gen, c.limit) && n.flags.dirty)
    ensures Kept(Hash(n, db, force, c), Expand(n), force, db.Some?, whole, env)
    decreases n, 0, 0
  {
    ShortKid(n, force, c.small);
    if n.val.Value? {
      assert RefOf(Expand(n.val), c.small) == ValueBlob(n.val.v);
      assert BlobOf(Expand(n), c.small) == ShortBlob(HexToCompact(n.key), ValueBlob(n.val.v));
      FinishSound(ShortBlob(HexToCompact(n.key), ValueBlob(n.val.v)), n, db, force, c, whole, env);
    } else {
      HashSound(n.val, db, false, c, whole, env);
      var r := Hash(n.val, db, false, c);
      var env1 := env.(db := DbAfter(r.db, env.db));
      if whole { CleanGrows(n.flags, Expand(n), force, env, env1); }
      FinishSound(ShortBlob(HexToCompact(n.key), r.ref), Short(n.key, r.node, n.flags), r.db, force, c, whole, env1);
      KeptAfter(Hash(n, db, force, c), Expand(n), force, db.Some?, whole, env, r.db);
    }
  }

  lemma {:induction false} ReplacesGrows(ref: Blob, node: Node, t: Tree, writing: bool, whole: bool, env: Env, env': Env)
    requires Replaces(ref, node, t, false, writing, whole, env) && Grows(env.db, env'.db) && env.small == env'.small
    ensures Replaces(ref, node, t, false, writing, whole, env')
  {
    if whole {
      AvailGrows(node, false, env, env');
      if writing { AvailBlobGrows(ref, env.db, env'.db); }
    }
  }

  /** The first children of a full node are replaced soundly. */
  ghost predicate KidsReplaced(r: HashedKids, kids: seq<Node>, writing: bool, whole: bool, env: Env)
    requires |r.refs| == |r.nodes| <= |kids|
  {
    && r.db.Some? == writing
    && forall i :: 0 <= i < |r.refs| ==> Replaces(r.refs[i], r.nodes[i], Expand(kids[i]), false, writing, whole, env)
  }

  lemma {:induction false} HashKidsSound(kids: seq<Node>, k: nat, db: Option<Store>, c: Conf, whole: bool, env: Env)
    requires k <= 16 && |kids| == 17 && env.small == c.small && StoreOk(env) && (db.Some? ==> db.value == env.db)
    requires forall i :: 0 <= i < 16 ==> WF(Expand(kids[i]), false)
    requires forall i :: 0 <= i < 17 ==> Coherent(kids[i], false, c.small) && (whole ==> Avail(kids[i], false, env))
    ensures var r := HashKids(kids, k, db, c);
            var env' := env.(db := DbAfter(r.db, env.db));
            Grows(env.db, env'.db) && StoreOk(env') && KidsReplaced(r, kids, db.Some?, whole, env')
    decreases kids, k
  {
    if k > 0 {
      HashKidsSound(kids, k - 1, db, c, whole, env);
      var front := HashKids(kids, k - 1, db, c);
      var env1 := env.(db := DbAfter(front.db, env.db));
      var kid := kids[k - 1];
      if !kid.Nil? {
        if whole { AvailGrows(kid, false, env, env1); }
        HashSound(kid, front.db, false, c, whole, env1);
        var r := Hash(kid, front.db, false, c);
        ExtendKids(front, r, kids, db.Some?, whole, env1, env.(db := DbAfter(r.db, env1.db)));
      } else {
        ExtendKids(front, Hashed(NilBlob, Nil, front.db), kids, db.Some?, whole, env1, env1);
      }
    }
  }

  lemma {:induction false} ExtendKids(front: HashedKids, r: Hashed, kids: seq<Node>, writing: bool, whole: bool, env: Env, env': Env)
    requires |front.refs| == |front.nodes| < |kids| && KidsReplaced(front, kids, writing, whole, env)
    requires Grows(env.db, env'.db) && env.small == env'.small && r.db.Some? == writing
    requires Replaces(r.ref, r.node, Expand(kids[|front.refs|]), false, writing, whole, env')
    ensures KidsReplaced(HashedKids(front.refs + [r.ref], front.nodes + [r.node], r.db), kids, writing, whole, env')
  {
    forall i | 0 <= i < |front.refs|
      ensures Replaces(front.refs[i], front.nodes[i], Expand(kids[i]), false, writing, whole, env')
    {
      ReplacesGrows(front.refs[i], front.nodes[i], Expand(kids[i]), writing, whole, env, env');
    }
  }

  lemma {:induction false} HashFull(n: Node, db: Option<Store>, force: bool, c: Conf, whole: bool, env: Env)
    requires n.Full? && WF(Expand(n), false) && env.small == c.small && StoreOk(env)
    requires Coherent(n, force, c.small) && (whole ==> Avail(n, force, env)) && (db.Some? ==> db.value == env.db)
    requires n.flags.hash.None? || (db.Some? && !CanUnload(n.flags, c.gen, c.limit) && n.flags.dirty)
    ensures Kept(Hash(n, db, force, c), Expand(n), force, db.Some?, whole, env)
    decreases n, 0, 0
  {
    var t := Expand(n);
    assert forall i :: 0 <= i < 17 ==> t.kids[i] == Expand(n.kids[i]);
    HashKidsSound(n.kids, 16, db, c, whole, env);
    var r := HashKids(n.kids, 16, db, c);
    var env1 := env.(db := DbAfter(r.db, env.db));
    if whole {
      CleanGrows(n.flags, t, force, env, env1);
      AvailGrows(n.kids[16], false, env, env1);
    }
    FullFinished(n, r, force, c, whole, env1);
    KeptAfter(Hash(n, db, force, c), t, force, db.Some?, whole, env, r.db);
  }

  function LastRef(kid: Node): Blob {
    if kid.Value? then ValueBlob(kid.v) else NilBlob
  }

  /** A full node whose children are hashed. */
  lemma {:induction false} FullFinished(n: Node, r: HashedKids, force: bool, c: Conf, whole: bool, env: Env)
    requires n.Full? && WF(Expand(n), false) && |r.refs| == |r.nodes| == 16
    requires env.small == c.small && StoreOk(env) && Coherent(n, force, c.small) && (whole ==> Clean(n.flags, Expand(n), force, env))
    requires if r.db.Some? then r.db.value == env.db else n.flags.hash.None?
    requires KidsReplaced(r, n.kids, r.db.Some?, whole, env) && (whole ==> Avail(n.kids[16], false, env))
    ensures Kept(Finish(FullBlob(r.refs + [LastRef(n.kids[16])]), Full(r.nodes + [n.kids[16]], n.flags), r.db, force, c),
                 Expand(n), force, r.db.Some?, whole, env)
  {
    var last := LastRef(n.kids[16]);
    assert forall i :: 0 <= i < 17 ==> Expand(n).kids[i] == Expand(n.kids[i]);
    CollapsedFull(n, r, last, c.small);
    FullReady(n, r, last, force, c, whole, env);
    FinishSound(FullBlob(r.refs + [last]), Full(r.nodes + [n.kids[16]], n.flags), r.db, force, c, whole, env);
  }

  lemma {:induction false} FullReady(n: Node, r: HashedKids, last: Blob, force: bool, c: Conf, whole: bool, env: Env)
    requires n.Full? && WF(Expand(n), false) && |r.refs| == |r.nodes| == 16
    requires env.small == c.small && StoreOk(env) && Coherent(n, force, c.small) && (whole ==> Clean(n.flags, Expand(n), force, env))
    requires if r.db.Some? then r.db.value == env.db else n.flags.hash.None?
    requires KidsReplaced(r, n.kids, r.db.Some?, whole, env)
    requires (whole ==> Avail(n.kids[16], false, env)) && (last.ValueBlob? || last.NilBlob?)
    requires FullBlob(r.refs + [last]) == BlobOf(Expand(n), c.small)
    requires Expand(Full(r.nodes + [n.kids[16]], n.flags)) == Expand(n)
    ensures Ready(FullBlob(r.refs + [last]), Full(r.nodes + [n.kids[16]], n.flags), r.db, force, c, whole, env)
  {
    var kids := r.nodes + [n.kids[16]];
    forall i | 0 <= i < 17
      ensures Coherent(kids[i], false, c.small) && (whole ==> Avail(kids[i], false, env))
    {
      assert i < 16 ==> kids[i] == r.nodes[i];
    }
    var refs := r.refs + [last];
    if r.db.Some? && whole {
      forall i | 0 <= i < 17 ensures AvailBlob(refs[i], env.db) {
        assert i < 16 ==> refs[i] == r.refs[i];
      }
    }
  }

  /** The collapsed full node is the stored form of the tree, and the cached one stands for it. */
  lemma {:induction false} CollapsedFull(n: Node, r: HashedKids, last: Blob, small: Blob -> bool)
    requires n.Full? && WF(Expand(n), false) && |r.refs| == |r.nodes| == 16
    requires forall i :: 0 <= i < 16 ==> r.refs[i] == RefOf(Expand(n.kids[i]), small) && Expand(r.nodes[i]) == Expand(n.kids[i])
    requires Coherent(n.kids[16], false, small)
    requires last == LastRef(n.kids[16])
    ensures FullBlob(r.refs + [last]) == BlobOf(Expand(n), small)
    ensures Expand(Full(r.nodes + [n.kids[16]], n.flags)) == Expand(n)
  {
    var t := Expand(n);
    assert forall i :: 0 <= i < 17 ==> t.kids[i] == Expand(n.kids[i]);
    assert WF(t.kids[16], true);
    assert n.kids[16].Value? || n.kids[16].Nil?;
    assert last == RefOf(t.kids[16], small);
    assert BlobOf(t, small).kids == r.refs + [last];
    assert Expand(Full(r.nodes + [n.kids[16]], n.flags)).kids == t.kids;
  }
}
