/**
 The in-memory nodes of a trie (trie/node.go) and their stored form.

 Keccak is modelled by the constructor `Keccak`: an injective function that nothing else is
 known about.  A `Blob` is the content of an encoded node; whether its encoding is shorter
 than 32 bytes is an arbitrary predicate `small` on blobs, so every result holds for every
 node codec.
 */
module Nodes {
  import opened Encoding
  import opened Tree

  datatype Hash = EmptyRoot | Keccak(blob: Blob)

  /** An encoded node: children are hashes, values, or small nodes stored in place. */
  datatype Blob =
    | NilBlob
    | ValueBlob(v: Bytes)
    | ShortBlob(key: Bytes, val: Blob)
    | FullBlob(kids: seq<Blob>)
    | HashBlob(h: Hash)

  /** `nodeFlag`: cached hash, cache generation, and whether the node must still be written. */
  datatype Flags = Flags(hash: Option<Hash>, gen: nat, dirty: bool)

  datatype Node =
    | Nil
    | Value(v: Bytes)
    | Short(key: Key, val: Node, flags: Flags)
    | Full(kids: seq<Node>, flags: Flags)
    | HashNode(h: Hash)

  type Store = map<Hash, Blob>

  /** What the recursive trie operations read: the database, `cachegen`, and the inlining predicate. */
  datatype Env = Env(db: Store, gen: nat, small: Blob -> bool)

  // ---------------------------------------------------------------------------
  // Expansion: the tree a node stands for
  // ---------------------------------------------------------------------------

  function HexOf(compact: Bytes): Key {
    if compact == [] then [] else CompactToHex(compact)
  }

  function ExpandHash(h: Hash): Tree {
    match h
    case EmptyRoot => Empty
    case Keccak(b) => ExpandBlob(b)
  }

  function ExpandBlob(b: Blob): Tree {
    match b
    case NilBlob => Empty
    case ValueBlob(v) => Val(v)
    case ShortBlob(key, val) => Ext(HexOf(key), ExpandBlob(val))
    case FullBlob(kids) => Branch(seq(|kids|, i requires 0 <= i < |kids| => ExpandBlob(kids[i])))
    case HashBlob(h) => ExpandHash(h)
  }

  function Expand(n: Node): Tree {
    match n
    case Nil => Empty
    case Value(v) => Val(v)
    case Short(key, val, _) => Ext(key, Expand(val))
    case Full(kids, _) => Branch(seq(|kids|, i requires 0 <= i < |kids| => Expand(kids[i])))
    case HashNode(h) => ExpandHash(h)
  }

  // ---------------------------------------------------------------------------
  // The stored form of a tree, computed from scratch
  // ---------------------------------------------------------------------------

  /** The node with its children replaced by what the parent stores for them. */
  function BlobOf(t: Tree, small: Blob -> bool): Blob
    decreases t, 0
  {
    match t
    case Empty => NilBlob
    case Val(v) => ValueBlob(v)
    case Ext(key, sub) => ShortBlob(if HexKey(key) then HexToCompact(key) else [], RefOf(sub, small))
    case Branch(kids) => FullBlob(seq(|kids|, i requires 0 <= i < |kids| => RefOf(kids[i], small)))
  }

  /** What a parent stores for a child: its hash, or the child itself when it is small. */
  function RefOf(t: Tree, small: Blob -> bool): Blob
    decreases t, 1
  {
    var b := BlobOf(t, small);
    if t.Empty? || t.Val? || small(b) then b else HashBlob(Keccak(b))
  }

  /** The root hash: the root node is hashed however small it is. */
  function RootHash(t: Tree, small: Blob -> bool): Hash {
    if t.Empty? then EmptyRoot else Keccak(BlobOf(t, small))
  }

  /** Storing a well-formed tree and expanding the stored form gives the tree back. */
  lemma {:induction false} ExpandStored(t: Tree, end: bool, small: Blob -> bool)
    requires WF(t, end)
    ensures ExpandBlob(BlobOf(t, small)) == t
    ensures ExpandBlob(RefOf(t, small)) == t
  {
    match t
    case Empty =>
    case Val(_) =>
    case Ext(key, sub) =>
      CompactRoundTrip(key);
      ExpandStored(sub, HasTerm(key), small);
    case Branch(kids) =>
      forall i | 0 <= i < 17
        ensures ExpandBlob(RefOf(kids[i], small)) == kids[i]
      {
        ExpandStored(kids[i], i == TERMINATOR, small);
      }
      assert ExpandBlob(BlobOf(t, small)).kids == kids;
  }

  /** Root hashes separate tries: equal root hashes mean equal content. */
  lemma {:induction false} RootHashInjective(a: Tree, b: Tree, small: Blob -> bool)
    requires WF(a, false) && WF(b, false) && RootHash(a, small) == RootHash(b, small)
    ensures a == b
  {
    ExpandStored(a, false, small);
    ExpandStored(b, false, small);
  }

  // ---------------------------------------------------------------------------
  // Loading
  // ---------------------------------------------------------------------------

  /** A node stored inside its parent carries no flags of its own. */
  function DecodeInner(b: Blob): Node {
    match b
    case NilBlob => Nil
    case ValueBlob(v) => Value(v)
    case ShortBlob(key, val) => Short(HexOf(key), DecodeInner(val), Flags(None, 0, false))
    case FullBlob(kids) => Full(seq(|kids|, i requires 0 <= i < |kids| => DecodeInner(kids[i])), Flags(None, 0, false))
    case HashBlob(h) => HashNode(h)
  }

  /** `decodeNode`: a loaded node is clean and knows its hash. */
  function Decode(b: Blob, h: Hash, gen: nat): Node
    requires b.ShortBlob? || b.FullBlob?
  {
    var flags := Flags(Some(h), gen, false);
    match b
    case ShortBlob(key, val) => Short(HexOf(key), DecodeInner(val), flags)
    case FullBlob(kids) => Full(seq(|kids|, i requires 0 <= i < |kids| => DecodeInner(kids[i])), flags)
  }

  lemma {:induction false} ExpandDecodeInner(b: Blob)
    ensures Expand(DecodeInner(b)) == ExpandBlob(b)
  {
    match b
    case ShortBlob(_, val) => ExpandDecodeInner(val);
    case FullBlob(kids) =>
      forall i | 0 <= i < |kids|
        ensures Expand(DecodeInner(kids[i])) == ExpandBlob(kids[i])
      {
        ExpandDecodeInner(kids[i]);
      }
      assert Expand(DecodeInner(b)).kids == ExpandBlob(b).kids;
    case _ =>
  }

  lemma {:induction false} ExpandDecode(b: Blob, h: Hash, gen: nat)
    requires b.ShortBlob? || b.FullBlob?
    ensures Expand(Decode(b, h, gen)) == ExpandBlob(b)
  {
    ExpandDecodeInner(b);
    if b.FullBlob? {
      assert Expand(Decode(b, h, gen)).kids == Expand(DecodeInner(b)).kids;
    }
  }

  /** `canUnload`, on 16-bit generation counters that wrap around. */
  predicate CanUnload(f: Flags, cachegen: nat, cachelimit: nat) {
    !f.dirty && (cachegen - f.gen) % 0x1_0000 >= cachelimit
  }

  // ---------------------------------------------------------------------------
  // Invariants
  // ---------------------------------------------------------------------------

  predicate IsInner(t: Tree) { t.Ext? || t.Branch? }

  /** `h` is the hash that computing from scratch gives for `t`; below the root only for nodes that are not inlined. */
  ghost predicate TrueHash(h: Hash, t: Tree, root: bool, small: Blob -> bool) {
    h == Keccak(BlobOf(t, small)) && (root || !small(BlobOf(t, small)))
  }

  /** Every cached hash and every unloaded node is the hash of the tree it stands for. */
  ghost predicate Coherent(n: Node, root: bool, small: Blob -> bool) {
    match n
    case Nil => true
    case Value(_) => true
    case Short(_, val, flags) =>
      && Coherent(val, false, small)
      && (flags.hash.Some? ==> TrueHash(flags.hash.value, Expand(n), root, small))
    case Full(kids, flags) =>
      && (forall i :: 0 <= i < |kids| ==> Coherent(kids[i], false, small))
      && (flags.hash.Some? ==> TrueHash(flags.hash.value, Expand(n), root, small))
    case HashNode(h) => IsInner(Expand(n)) && TrueHash(h, Expand(n), root, small)
  }

  /** Every blob of the database is the stored form of a well-formed tree, under its own hash. */
  ghost predicate StoreOk(env: Env) {
    forall h :: h in env.db ==>
      && h == Keccak(env.db[h])
      && WF(ExpandBlob(env.db[h]), false) && IsInner(ExpandBlob(env.db[h]))
      && env.db[h] == BlobOf(ExpandBlob(env.db[h]), env.small)
  }

  /** Everything the blob refers to, directly or not, is in the database. */
  ghost predicate AvailBlob(b: Blob, db: Store) {
    match b
    case NilBlob => true
    case ValueBlob(_) => true
    case ShortBlob(_, val) => AvailBlob(val, db)
    case FullBlob(kids) => forall i :: 0 <= i < |kids| ==> AvailBlob(kids[i], db)
    case HashBlob(h) => AvailHash(h, db)
  }

  ghost predicate AvailHash(h: Hash, db: Store) {
    h.Keccak? && h in db && AvailBlob(h.blob, db)
  }

  /**
   A node flagged clean is in the database with all it refers to, under its cached hash; only a
   node stored inside its parent is clean without a hash.
   */
  ghost predicate Clean(f: Flags, t: Tree, root: bool, env: Env) {
    !f.dirty ==>
      if root then f.hash.Some? && AvailHash(f.hash.value, env.db)
      else AvailBlob(RefOf(t, env.small), env.db) && (f.hash.None? ==> env.small(BlobOf(t, env.small)))
  }

  /** Nothing the trie refers to is missing: every unloaded subtrie and every clean node is stored. */
  ghost predicate Avail(n: Node, root: bool, env: Env) {
    match n
    case Nil => true
    case Value(_) => true
    case Short(_, val, flags) => Avail(val, false, env) && Clean(flags, Expand(n), root, env)
    case Full(kids, flags) =>
      && (forall i :: 0 <= i < |kids| ==> Avail(kids[i], false, env))
      && Clean(flags, Expand(n), root, env)
    case HashNode(h) => AvailHash(h, env.db)
  }

  // ---------------------------------------------------------------------------
  // Loading keeps the invariants
  // ---------------------------------------------------------------------------

  lemma {:induction false} DecodeCoherent(t: Tree, end: bool, small: Blob -> bool)
    requires WF(t, end)
    ensures Coherent(DecodeInner(BlobOf(t, small)), false, small)
    ensures Coherent(DecodeInner(RefOf(t, small)), false, small)
  {
    match t
    case Empty =>
    case Val(_) =>
    case Ext(key, sub) =>
      DecodeCoherent(sub, HasTerm(key), small);
      ExpandStored(t, end, small);
    case Branch(kids) =>
      forall i | 0 <= i < 17
        ensures Coherent(DecodeInner(RefOf(kids[i], small)), false, small)
      {
        DecodeCoherent(kids[i], i == TERMINATOR, small);
      }
      ExpandStored(t, end, small);
  }

  lemma {:induction false} DecodeAvail(t: Tree, end: bool, env: Env)
    requires WF(t, end) && AvailBlob(RefOf(t, env.small), env.db)
    ensures Avail(DecodeInner(RefOf(t, env.small)), false, env)
  {
    ExpandStored(t, end, env.small);
    ExpandDecodeInner(RefOf(t, env.small));
    match t
    case Empty =>
    case Val(_) =>
    case Ext(key, sub) =>
      if env.small(BlobOf(t, env.small)) { DecodeAvail(sub, HasTerm(key), env); }
    case Branch(kids) =>
      if env.small(BlobOf(t, env.small)) { DecodeAvailKids(kids, env); }
  }

  lemma {:induction false} DecodeAvailKids(kids: seq<Tree>, env: Env)
    requires |kids| == 17
    requires forall i :: 0 <= i < 17 ==> WF(kids[i], i == TERMINATOR) && AvailBlob(RefOf(kids[i], env.small), env.db)
    ensures forall i :: 0 <= i < 17 ==> Avail(DecodeInner(RefOf(kids[i], env.small)), false, env)
    decreases kids
  {
    forall i | 0 <= i < 17
      ensures Avail(DecodeInner(RefOf(kids[i], env.small)), false, env)
    {
      DecodeAvail(kids[i], i == TERMINATOR, env);
    }
  }

  /** `resolveHash`: load the node behind a hash, or report it missing. */
  function Resolve(h: Hash, env: Env): (r: Option<Node>)
    requires StoreOk(env)
    ensures r.Some? <==> h in env.db
    ensures r.Some? ==> r.value.Short? || r.value.Full?
  {
    if h !in env.db then None
    else
      assert IsInner(ExpandBlob(env.db[h]));
      assert env.db[h] == BlobOf(ExpandBlob(env.db[h]), env.small);
      Some(Decode(env.db[h], h, env.gen))
  }

  lemma {:induction false} LoadedCoherent(t: Tree, root: bool, env: Env)
    requires WF(t, false) && IsInner(t)
    requires TrueHash(Keccak(BlobOf(t, env.small)), t, root, env.small)
    ensures Coherent(Decode(BlobOf(t, env.small), Keccak(BlobOf(t, env.small)), env.gen), root, env.small)
  {
    var b := BlobOf(t, env.small);
    ExpandStored(t, false, env.small);
    ExpandDecode(b, Keccak(b), env.gen);
    DecodeCoherent(t, false, env.small);
  }

  lemma {:induction false} LoadedAvail(t: Tree, root: bool, env: Env)
    requires WF(t, false) && IsInner(t)
    requires TrueHash(Keccak(BlobOf(t, env.small)), t, root, env.small) && AvailHash(Keccak(BlobOf(t, env.small)), env.db)
    ensures Avail(Decode(BlobOf(t, env.small), Keccak(BlobOf(t, env.small)), env.gen), root, env)
  {
    var b := BlobOf(t, env.small);
    ExpandStored(t, false, env.small);
    ExpandDecode(b, Keccak(b), env.gen);
    if t.Ext? { DecodeAvail(t.sub, HasTerm(t.key), env); } else { DecodeAvailKids(t.kids, env); }
  }

  /** A loaded node stands for the same tree, and is coherent and available where its hash was. */
  lemma {:induction false} ResolveSound(h: Hash, root: bool, env: Env)
    requires StoreOk(env) && h in env.db
    ensures Expand(Resolve(h, env).value) == ExpandHash(h)
    ensures Coherent(HashNode(h), root, env.small) ==> Coherent(Resolve(h, env).value, root, env.small)
    ensures Coherent(HashNode(h), root, env.small) && AvailHash(h, env.db) ==> Avail(Resolve(h, env).value, root, env)
  {
    ExpandDecode(env.db[h], h, env.gen);
    var t := ExpandBlob(env.db[h]);
    if Coherent(HashNode(h), root, env.small) {
      LoadedCoherent(t, root, env);
      if AvailHash(h, env.db) { LoadedAvail(t, root, env); }
    }
  }
}
