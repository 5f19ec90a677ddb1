/**
 The `Trie` object of trie/trie.go and its runs.  Over every interleaving of lookups, updates,
 deletions, hashing and committing, the trie answers as a finite map would, every cached hash
 stays right, nothing goes missing, and the root hash is a faithful fingerprint of the map.  A trie
 some of whose subtries are not in the database does the same, but for operations that meet a
 missing node: they report it and change nothing.
 */
module Trie {
  import opened Encoding
  import opened Tree
  import opened Nodes
  import T = TreeOps
  import N = NodeOps
  import H = Hasher
  import P = NodePaths

  /** The fields of a trie: `root`, `cachegen`, `cachelimit` and the node database. */
  datatype State = State(root: Node, gen: nat, limit: nat, db: Store)

  function EnvOf(s: State, small: Blob -> bool): Env {
    Env(s.db, s.gen, small)
  }

  ghost predicate Inv(s: State, small: Blob -> bool) {
    && StoreOk(EnvOf(s, small))
    && WF(Expand(s.root), false)
    && Coherent(s.root, true, small)
  }

  /** Nothing the trie refers to is missing from the database. */
  ghost predicate Whole(s: State, small: Blob -> bool) {
    Avail(s.root, true, EnvOf(s, small))
  }

  /** What the trie holds under a raw key. */
  function Holds(s: State, key: Bytes): Option<Bytes> {
    Lookup(Expand(s.root), KeybytesToHex(key))
  }

  // ---------------------------------------------------------------------------
  // One operation
  // ---------------------------------------------------------------------------

  lemma {:induction false} KeyOk(s: State, key: Bytes, small: Blob -> bool)
    requires Inv(s, small)
    ensures N.Callable(s.root, KeybytesToHex(key), EnvOf(s, small))
  {
    KeybytesRoundTrip(key);
  }

  function Get(s: State, key: Bytes, small: Blob -> bool): (State, Option<Bytes>)
    requires Inv(s, small)
  {
    KeyOk(s, key, small);
    match N.TryGet(s.root, KeybytesToHex(key), EnvOf(s, small))
    case GetMissing => (s, None)
    case Got(v, nn, resolved) => (if resolved then s.(root := nn) else s, v)
  }

  function Edit(s: State, r: N.EditResult): State {
    match r
    case EditMissing => s
    case Edited(_, nn) => s.(root := nn)
  }

  /** `TryDelete`. */
  function Delete(s: State, key: Bytes, small: Blob -> bool): State
    requires Inv(s, small)
  {
    KeyOk(s, key, small);
    Edit(s, N.Delete(s.root, KeybytesToHex(key), EnvOf(s, small)))
  }

  /** `TryUpdate`: an empty value deletes. */
  function Update(s: State, key: Bytes, value: Bytes, small: Blob -> bool): State
    requires Inv(s, small)
  {
    KeyOk(s, key, small);
    if value != [] then Edit(s, N.Insert(s.root, KeybytesToHex(key), value, EnvOf(s, small)))
    else Delete(s, key, small)
  }

  /** `hashRoot`, with the database when committing. */
  function HashRoot(s: State, db: Option<Store>, small: Blob -> bool): H.Hashed
    requires Inv(s, small)
  {
    if s.root.Nil? then H.Hashed(HashBlob(EmptyRoot), Nil, db)
    else H.Hash(s.root, db, true, H.Conf(s.gen, s.limit, small))
  }

  function HashStep(s: State, small: Blob -> bool): State
    requires Inv(s, small)
  {
    s.(root := HashRoot(s, None, small).node)
  }

  function CommitStep(s: State, small: Blob -> bool): State
    requires Inv(s, small)
  {
    var r := HashRoot(s, Some(s.db), small);
    State(r.node, NextGen(s.gen), s.limit, H.DbAfter(r.db, s.db))
  }

  /** Generations are 16-bit numbers. */
  function NextGen(gen: nat): nat {
    (gen + 1) % 0x1_0000
  }

  // ---------------------------------------------------------------------------
  // What one operation does to the tree
  // ---------------------------------------------------------------------------

  /** A lookup that meets no missing node answers with what the trie holds and leaves the path loaded; in a whole trie none does. */
  lemma {:induction false} GetSound(s: State, key: Bytes, small: Blob -> bool)
    requires Inv(s, small)
    ensures var (s', v) := Get(s, key, small);
            && Inv(s', small) && Expand(s'.root) == Expand(s.root)
            && (if Misses(s, GetOp(key)) then s' == s else v == Holds(s, key) && !PathMissing(s'.(db := map[]), key))
            && (Whole(s, small) ==> !Misses(s, GetOp(key)) && Whole(s', small))
  {
    KeyOk(s, key, small);
    N.TryGetSound(s.root, KeybytesToHex(key), true, EnvOf(s, small));
    P.GetMisses(s.root, KeybytesToHex(key), EnvOf(s, small));
    if !PathMissing(s, key) { P.GetLoads(s.root, KeybytesToHex(key), EnvOf(s, small)); }
  }

  /** An edit of the root that gives the tree `t`, or reports a missing node. */
  lemma {:induction false} EditSound(s: State, r: N.EditResult, t: Tree, small: Blob -> bool)
    requires Inv(s, small) && WF(t, false) && (r.Edited? ==> Expand(r.node) == t && Coherent(r.node, true, small))
    requires Whole(s, small) ==> r.Edited? && Avail(r.node, true, EnvOf(s, small))
    ensures Inv(Edit(s, r), small) && (if r.EditMissing? then Edit(s, r) == s else Expand(Edit(s, r).root) == t)
    ensures Whole(s, small) ==> r.Edited? && Whole(Edit(s, r), small)
  {
  }

  lemma {:induction false} DeleteSound(s: State, key: Bytes, small: Blob -> bool)
    requires Inv(s, small)
    ensures Inv(Delete(s, key, small), small)
    ensures WF(Expand(s.root), KeybytesToHex(key) == []) && Terminated(KeybytesToHex(key))
    ensures if Misses(s, DeleteOp(key)) then Delete(s, key, small) == s
            else Expand(Delete(s, key, small).root) == T.Delete(Expand(s.root), KeybytesToHex(key))
    ensures Whole(s, small) ==> !Misses(s, DeleteOp(key)) && Whole(Delete(s, key, small), small)
  {
    KeyOk(s, key, small);
    var k, env := KeybytesToHex(key), EnvOf(s, small);
    N.DeleteSound(s.root, k, true, env);
    P.DeleteMisses(s.root, k, true, env);
    T.DeleteWF(Expand(s.root), k);
    EditSound(s, N.Delete(s.root, k, env), T.Delete(Expand(s.root), k), small);
  }

  lemma {:induction false} UpdateSound(s: State, key: Bytes, value: Bytes, small: Blob -> bool)
    requires Inv(s, small) && value != []
    ensures Inv(Update(s, key, value, small), small)
    ensures WF(Expand(s.root), KeybytesToHex(key) == []) && Terminated(KeybytesToHex(key))
    ensures if Misses(s, UpdateOp(key, value)) then Update(s, key, value, small) == s
            else Expand(Update(s, key, value, small).root) == T.Insert(Expand(s.root), KeybytesToHex(key), value)
    ensures Whole(s, small) ==> !Misses(s, UpdateOp(key, value)) && Whole(Update(s, key, value, small), small)
  {
    KeyOk(s, key, small);
    var k, env := KeybytesToHex(key), EnvOf(s, small);
    N.InsertSound(s.root, k, value, true, env);
    P.InsertMisses(s.root, k, value, true, env);
    T.InsertWF(Expand(s.root), k, value);
    EditSound(s, N.Insert(s.root, k, value, env), T.Insert(Expand(s.root), k, value), small);
  }

  lemma {:induction false} HashRootSound(s: State, db: Option<Store>, gen: nat, small: Blob -> bool)
    requires Inv(s, small) && (db.Some? ==> db.value == s.db)
    ensures var r := HashRoot(s, db, small);
            var s' := State(r.node, gen, s.limit, H.DbAfter(r.db, s.db));
            && r.ref == HashBlob(RootHash(Expand(s.root), small))
            && Expand(r.node) == Expand(s.root)
            && r.db.Some? == db.Some? && H.Grows(s.db, s'.db)
            && Inv(s', small)
            && (Whole(s, small) ==> Whole(s', small))
  {
    var r := HashRoot(s, db, small);
    if !s.root.Nil? {
      H.HashSound(s.root, db, true, H.Conf(s.gen, s.limit, small), Whole(s, small), EnvOf(s, small));
    }
    var db' := H.DbAfter(r.db, s.db);
    if Whole(s, small) { H.AvailGrows(r.node, true, Env(db', s.gen, small), Env(db', gen, small)); }
  }

  /** Hashing leaves the tree alone and returns its hash computed from scratch. */
  lemma {:induction false} HashStepSound(s: State, small: Blob -> bool)
    requires Inv(s, small)
    ensures Inv(HashStep(s, small), small) && Expand(HashStep(s, small).root) == Expand(s.root)
    ensures HashRoot(s, None, small).ref == HashBlob(RootHash(Expand(s.root), small))
    ensures Whole(s, small) ==> Whole(HashStep(s, small), small)
  {
    HashRootSound(s, None, s.gen, small);
  }

  /** So does committing, which only adds to the database and, if the trie is whole, stores all of it. */
  lemma {:induction false} CommitStepSound(s: State, small: Blob -> bool)
    requires Inv(s, small)
    ensures Inv(CommitStep(s, small), small) && Expand(CommitStep(s, small).root) == Expand(s.root)
    ensures HashRoot(s, Some(s.db), small).ref == HashBlob(RootHash(Expand(s.root), small))
    ensures H.Grows(s.db, CommitStep(s, small).db)
    ensures Whole(s, small) ==> Whole(CommitStep(s, small), small)
  {
    HashRootSound(s, Some(s.db), NextGen(s.gen), small);
  }

  /** The reference that committing a whole trie returns leads nowhere outside the database. */
  lemma {:induction false} CommitStores(s: State, small: Blob -> bool)
    requires Inv(s, small) && Whole(s, small) && !s.root.Nil?
    ensures AvailBlob(HashRoot(s, Some(s.db), small).ref, CommitStep(s, small).db)
  {
    H.HashSound(s.root, Some(s.db), true, H.Conf(s.gen, s.limit, small), true, EnvOf(s, small));
  }

  // ---------------------------------------------------------------------------
  // Refinement of a finite map
  // ---------------------------------------------------------------------------

  type Map = map<Bytes, Bytes>

  function MapGet(m: Map, key: Bytes): Option<Bytes> {
    if key in m then Some(m[key]) else None
  }

  /** The trie holds exactly the map: its raw keys map alike, and it holds no key of an odd number of nibbles. */
  ghost predicate Represents(s: State, m: Map) {
    && (forall key :: Holds(s, key) == MapGet(m, key))
    && (forall k :: Terminated(k) && Lookup(Expand(s.root), k).Some? ==> |k| % 2 == 1)
    && (forall key :: key in m ==> m[key] != [])
  }

  datatype Op =
    | GetOp(key: Bytes)
    | UpdateOp(key: Bytes, value: Bytes)
    | DeleteOp(key: Bytes)
    | HashOp
    | CommitOp
    | LimitOp(limit: nat)

  function Step(s: State, op: Op, small: Blob -> bool): State
    requires Inv(s, small)
  {
    match op
    case GetOp(key) => Get(s, key, small).0
    case UpdateOp(key, value) => Update(s, key, value, small)
    case DeleteOp(key) => Delete(s, key, small)
    case HashOp => HashStep(s, small)
    case CommitOp => CommitStep(s, small)
    case LimitOp(limit) => s.(limit := limit)
  }

  /** A node on the path of the key is not in the database. */
  ghost predicate PathMissing(s: State, key: Bytes) {
    P.Blocked(s.root, KeybytesToHex(key), s.db)
  }

  /** Deleting the key makes a full node collapse onto an entry that is not in the database. */
  ghost predicate EntryMissing(s: State, key: Bytes) {
    P.Strands(s.root, KeybytesToHex(key), s.db)
  }

  /** The operation has to load a node that is not in the database. */
  ghost predicate Misses(s: State, op: Op) {
    match op
    case GetOp(key) => PathMissing(s, key)
    case UpdateOp(key, value) => PathMissing(s, key) || (value == [] && EntryMissing(s, key))
    case DeleteOp(key) => PathMissing(s, key) || EntryMissing(s, key)
    case _ => false
  }

  function MapStep(m: Map, op: Op): Map {
    match op
    case UpdateOp(key, value) => if value != [] then m[key := value] else m - {key}
    case DeleteOp(key) => m - {key}
    case _ => m
  }

  lemma {:induction false} RawKeys(a: Bytes, b: Bytes)
    ensures KeybytesToHex(a) == KeybytesToHex(b) <==> a == b
    ensures |KeybytesToHex(a)| % 2 == 1
  {
    KeybytesRoundTrip(a);
    KeybytesRoundTrip(b);
    OddLength(a);
  }

  lemma {:induction false} OddLength(a: Bytes)
    ensures |KeybytesToHex(a)| % 2 == 1
  {
    UnpackShape(a);
    assert |KeybytesToHex(a)| == 2 * |a| + 1;
  }

  /** A state whose tree reads like the old one with one raw key changed represents the changed map. */
  lemma {:induction false} RepresentsChange(s: State, s': State, m: Map, m': Map, key: Bytes)
    requires Represents(s, m)
    requires forall k :: k != key ==> MapGet(m', k) == MapGet(m, k)
    requires key in m' ==> m'[key] != []
    requires forall k :: Terminated(k) ==>
               Lookup(Expand(s'.root), k) == if k == KeybytesToHex(key) then MapGet(m', key) else Lookup(Expand(s.root), k)
    ensures Represents(s', m')
  {
    forall k ensures Holds(s', k) == MapGet(m', k) {
      RawKeys(k, key);
      KeybytesRoundTrip(k);
      assert Holds(s, k) == MapGet(m, k);
    }
    forall k | Terminated(k) && Lookup(Expand(s'.root), k).Some? ensures |k| % 2 == 1 {
      RawKeys(key, key);
    }
    forall k | k in m' ensures m'[k] != [] {
      assert k != key ==> MapGet(m', k) == MapGet(m, k);
    }
  }

  lemma {:induction false} DeleteRefines(s: State, key: Bytes, m: Map, small: Blob -> bool)
    requires Inv(s, small) && Represents(s, m)
    ensures Represents(Delete(s, key, small), if Misses(s, DeleteOp(key)) then m else m - {key})
  {
    DeleteSound(s, key, small);
    if !Misses(s, DeleteOp(key)) {
      var s' := Delete(s, key, small);
      forall k | Terminated(k)
        ensures Lookup(Expand(s'.root), k) ==
                if k == KeybytesToHex(key) then MapGet(m - {key}, key) else Lookup(Expand(s.root), k)
      {
        T.DeleteLookup(Expand(s.root), KeybytesToHex(key), k);
      }
      RepresentsChange(s, s', m, m - {key}, key);
    }
  }

  lemma {:induction false} UpdateRefines(s: State, key: Bytes, value: Bytes, m: Map, small: Blob -> bool)
    requires Inv(s, small) && Represents(s, m) && value != []
    ensures Represents(Update(s, key, value, small), if Misses(s, UpdateOp(key, value)) then m else m[key := value])
  {
    UpdateSound(s, key, value, small);
    if !Misses(s, UpdateOp(key, value)) {
      var s' := Update(s, key, value, small);
      forall k | Terminated(k)
        ensures Lookup(Expand(s'.root), k) ==
                if k == KeybytesToHex(key) then MapGet(m[key := value], key) else Lookup(Expand(s.root), k)
      {
        T.InsertLookup(Expand(s.root), KeybytesToHex(key), value, k);
      }
      RepresentsChange(s, s', m, m[key := value], key);
    }
  }

  lemma {:induction false} StepInv(s: State, op: Op, small: Blob -> bool)
    requires Inv(s, small)
    ensures Inv(Step(s, op, small), small)
    ensures Whole(s, small) ==> !Misses(s, op) && Whole(Step(s, op, small), small)
  {
    match op
    case GetOp(key) => GetSound(s, key, small);
    case UpdateOp(key, value) =>
      if value != [] { UpdateSound(s, key, value, small); } else { DeleteSound(s, key, small); }
    case DeleteOp(key) => DeleteSound(s, key, small);
    case HashOp => HashStepSound(s, small);
    case CommitOp => CommitStepSound(s, small);
    case LimitOp(_) =>
  }

  /** Every operation does to the trie what it does to the map, or meets a missing node and does nothing. */
  lemma {:induction false} StepRefines(s: State, op: Op, m: Map, small: Blob -> bool)
    requires Inv(s, small) && Represents(s, m)
    ensures Represents(Step(s, op, small), if Misses(s, op) then m else MapStep(m, op))
  {
    match op
    case GetOp(key) => GetSound(s, key, small);
    case UpdateOp(key, value) =>
      if value != [] { UpdateRefines(s, key, value, m, small); } else { DeleteRefines(s, key, m, small); }
    case DeleteOp(key) => DeleteRefines(s, key, m, small);
    case HashOp => HashStepSound(s, small);
    case CommitOp => CommitStepSound(s, small);
    case LimitOp(_) =>
  }

  function Run(s: State, ops: seq<Op>, small: Blob -> bool): State
    requires Inv(s, small)
    decreases |ops|
  {
    if ops == [] then s
    else
      StepInv(s, ops[0], small);
      Run(Step(s, ops[0], small), ops[1..], small)
  }

  /** The operations of a run that meet no missing node. */
  ghost function Effective(s: State, ops: seq<Op>, small: Blob -> bool): seq<Op>
    requires Inv(s, small)
    decreases |ops|
  {
    if ops == [] then []
    else
      StepInv(s, ops[0], small);
      (if Misses(s, ops[0]) then [] else [ops[0]]) + Effective(Step(s, ops[0], small), ops[1..], small)
  }

  function MapRun(m: Map, ops: seq<Op>): Map
    decreases |ops|
  {
    if ops == [] then m else MapRun(MapStep(m, ops[0]), ops[1..])
  }

  /** Refinement over whole runs, with every invariant kept; over a whole trie every operation counts. */
  lemma {:induction false} RunRefines(s: State, ops: seq<Op>, m: Map, small: Blob -> bool)
    requires Inv(s, small) && Represents(s, m)
    ensures Inv(Run(s, ops, small), small) && Represents(Run(s, ops, small), MapRun(m, Effective(s, ops, small)))
    ensures Whole(s, small) ==> Whole(Run(s, ops, small), small) && Effective(s, ops, small) == ops
    decreases |ops|
  {
    if ops != [] {
      var op, s' := ops[0], Step(s, ops[0], small);
      StepInv(s, op, small);
      StepRefines(s, op, m, small);
      var rest := Effective(s', ops[1..], small);
      if Misses(s, op) {
        RunRefines(s', ops[1..], m, small);
        assert [] + rest == rest;
      } else {
        RunRefines(s', ops[1..], MapStep(m, op), small);
        assert ([op] + rest)[1..] == rest;
      }
    }
  }

  // ---------------------------------------------------------------------------
  // The root hash is a fingerprint of the map
  // ---------------------------------------------------------------------------

  lemma {:induction false} SameMapSameTree(a: State, b: State, m: Map, small: Blob -> bool)
    requires Inv(a, small) && Inv(b, small) && Represents(a, m) && Represents(b, m)
    ensures Expand(a.root) == Expand(b.root)
  {
    forall k | Terminated(k)
      ensures Lookup(Expand(a.root), k) == Lookup(Expand(b.root), k)
    {
      if |k| % 2 == 1 {
        var body := k[..|k| - 1];
        UnpackPack(body);
        assert k == KeybytesToHex(PackAll(body));
        assert Holds(a, PackAll(body)) == Holds(b, PackAll(body));
      }
    }
    Canonical(Expand(a.root), Expand(b.root), false);
  }

  lemma {:induction false} SameTreeSameMap(a: State, b: State, m: Map, m': Map)
    requires Represents(a, m) && Represents(b, m') && Expand(a.root) == Expand(b.root)
    ensures m == m'
  {
    forall key
      ensures (key in m <==> key in m') && (key in m ==> m[key] == m'[key])
    {
      assert Holds(a, key) == MapGet(m, key) && Holds(b, key) == MapGet(m', key);
    }
  }

  /** The hash `Hash` returns in a state. */
  function HashAnswer(s: State, small: Blob -> bool): Blob
    requires Inv(s, small)
  {
    HashRoot(s, None, small).ref
  }

  /**
   Main theorem.  Start any two empty tries over any databases and run any two sequences of
   operations: afterwards their root hashes are equal exactly when the maps they hold are equal,
   whatever was loaded, cached, committed or unloaded on the way.
   */
  lemma {:induction false} HashIsFingerprint(ops: seq<Op>, ops': seq<Op>, s: State, s': State, small: Blob -> bool)
    requires s.root == Nil && s'.root == Nil && StoreOk(EnvOf(s, small)) && StoreOk(EnvOf(s', small))
    ensures Inv(s, small) && Inv(s', small)
    ensures Inv(Run(s, ops, small), small) && Inv(Run(s', ops', small), small)
    ensures HashAnswer(Run(s, ops, small), small) == HashAnswer(Run(s', ops', small), small)
            <==> MapRun(map[], ops) == MapRun(map[], ops')
  {
    RunRefines(s, ops, map[], small);
    RunRefines(s', ops', map[], small);
    var a, b := Run(s, ops, small), Run(s', ops', small);
    var m, m' := MapRun(map[], ops), MapRun(map[], ops');
    HashStepSound(a, small);
    HashStepSound(b, small);
    if m == m' {
      SameMapSameTree(a, b, m, small);
    }
    if HashAnswer(a, small) == HashAnswer(b, small) {
      RootHashInjective(Expand(a.root), Expand(b.root), small);
      SameTreeSameMap(a, b, m, m');
    }
  }

  lemma {:induction false} HoldsInserted(s: State, s': State, key: Bytes, value: Bytes, small: Blob -> bool)
    requires Inv(s, small) && value != [] && Terminated(KeybytesToHex(key)) && Expand(s'.root) == T.Insert(Expand(s.root), KeybytesToHex(key), value)
    ensures forall k :: Holds(s', k) == if k != key then Holds(s, k) else Some(value)
  {
    forall k ensures Holds(s', k) == if k != key then Holds(s, k) else Some(value) {
      RawKeys(k, key);
      KeybytesRoundTrip(k);
      T.InsertLookup(Expand(s.root), KeybytesToHex(key), value, KeybytesToHex(k));
    }
  }

  lemma {:induction false} HoldsDeleted(s: State, s': State, key: Bytes, small: Blob -> bool)
    requires Inv(s, small) && Terminated(KeybytesToHex(key)) && Expand(s'.root) == T.Delete(Expand(s.root), KeybytesToHex(key))
    ensures forall k :: Holds(s', k) == if k != key then Holds(s, k) else None
  {
    forall k ensures Holds(s', k) == if k != key then Holds(s, k) else None {
      RawKeys(k, key);
      KeybytesRoundTrip(k);
      T.DeleteLookup(Expand(s.root), KeybytesToHex(key), KeybytesToHex(k));
    }
  }

  /** A stored hash is the hash of the tree it stands for. */
  lemma {:induction false} StoredHash(h: Hash, env: Env)
    requires StoreOk(env) && h in env.db
    ensures WF(ExpandHash(h), false) && Coherent(HashNode(h), true, env.small)
  {
  }

  // ---------------------------------------------------------------------------
  // The object
  // ---------------------------------------------------------------------------

  class Trie {
    var root: Node
    var cachegen: nat
    var cachelimit: nat
    var db: Store
    const small: Blob -> bool

    function Fields(): State
      reads this
    {
      State(root, cachegen, cachelimit, db)
    }

    ghost predicate Valid()
      reads this
    {
      Inv(Fields(), small)
    }

    /** `New` with the empty root: needs no stored node. */
    constructor (db: Store, small: Blob -> bool)
      requires StoreOk(Env(db, 0, small))
      ensures Valid() && IsWhole() && this.db == db && this.small == small && root == Nil
      ensures forall key :: Holds(Fields(), key).None?
    {
      root, cachegen, cachelimit := Nil, 0, 0;
      this.db, this.small := db, small;
    }

    /** `New` with a root that is in the database: the trie stands for the content that was hashed to it. */
    constructor Open(h: Hash, db: Store, small: Blob -> bool)
      requires StoreOk(Env(db, 0, small)) && h in db
      ensures Valid() && this.db == db && this.small == small
      ensures Expand(root) == ExpandHash(h) && (AvailHash(h, db) ==> IsWhole())
    {
      var env := Env(db, 0, small);
      StoredHash(h, env);
      ResolveSound(h, true, env);
      root, cachegen, cachelimit := Resolve(h, env).value, 0, 0;
      this.db, this.small := db, small;
    }

    /** `New`: fails exactly when the root is not in the database. */
    static method New(h: Hash, db: Store, small: Blob -> bool) returns (t: Trie?)
      requires StoreOk(Env(db, 0, small))
      ensures t == null <==> h != EmptyRoot && h !in db
      ensures t != null ==> fresh(t) && t.Valid() && t.db == db && t.small == small
      ensures t != null ==> Expand(t.root) == if h == EmptyRoot then Empty else ExpandHash(h)
    {
      if h == EmptyRoot {
        t := new Trie(db, small);
      } else if h !in db {
        t := null;
      } else {
        t := new Trie.Open(h, db, small);
      }
    }

    ghost predicate IsWhole()
      reads this
    {
      Whole(Fields(), small)
    }

    method SetCacheLimit(l: nat)
      requires Valid()
      modifies this`cachelimit
      ensures Valid() && cachelimit == l && (old(IsWhole()) ==> IsWhole())
    {
      cachelimit := l;
    }

    /** The stored value or nothing; a missing node is reported and changes nothing. */
    method TryGet(key: Bytes) returns (value: Option<Bytes>, missing: bool)
      requires Valid()
      modifies this`root
      ensures Valid() && (old(IsWhole()) ==> !missing && IsWhole())
      ensures missing <==> old(Misses(Fields(), GetOp(key)))
      ensures (missing ==> value.None?) && (!missing ==> value == old(Holds(Fields(), key)) && !PathMissing(Fields().(db := map[]), key))
      ensures Fields() == old(Get(Fields(), key, small).0) && (missing ==> Fields() == old(Fields()))
      ensures forall k :: Holds(Fields(), k) == old(Holds(Fields(), k))
    {
      GetSound(Fields(), key, small);
      var k := KeybytesToHex(key);
      KeyOk(Fields(), key, small);
      P.GetMisses(root, k, EnvOf(Fields(), small));
      match N.TryGet(root, k, EnvOf(Fields(), small)) {
        case GetMissing => value, missing := None, true;
        case Got(v, newroot, didResolve) =>
          value, missing := v, false;
          if didResolve { root := newroot; }
      }
    }

    /** Sets or unsets one key; a missing node is reported and changes nothing. */
    method TryUpdate(key: Bytes, value: Bytes) returns (missing: bool)
      requires Valid()
      modifies this`root
      ensures Valid() && (old(IsWhole()) ==> !missing && IsWhole())
      ensures missing <==> old(Misses(Fields(), UpdateOp(key, value)))
      ensures Fields() == old(Update(Fields(), key, value, small)) && (missing ==> Fields() == old(Fields()))
      ensures !missing ==>
                forall k :: Holds(Fields(), k) == (if k != key then old(Holds(Fields(), k)) else if value != [] then Some(value) else None)
    {
      if value != [] {
        missing := SetKey(key, value);
      } else {
        missing := TryDelete(key);
      }
    }

    method SetKey(key: Bytes, value: Bytes) returns (missing: bool)
      requires Valid() && value != []
      modifies this`root
      ensures Valid() && (old(IsWhole()) ==> !missing && IsWhole())
      ensures missing <==> old(Misses(Fields(), UpdateOp(key, value)))
      ensures Fields() == old(Update(Fields(), key, value, small)) && (missing ==> Fields() == old(Fields()))
      ensures !missing ==> forall k :: Holds(Fields(), k) == if k != key then old(Holds(Fields(), k)) else Some(value)
    {
      ghost var was := Fields();
      KeyOk(was, key, small);
      UpdateSound(was, key, value, small);
      P.InsertMisses(root, KeybytesToHex(key), value, true, EnvOf(was, small));
      match N.Insert(root, KeybytesToHex(key), value, EnvOf(Fields(), small)) {
        case EditMissing => missing := true;
        case Edited(_, n) =>
          root, missing := n, false;
          HoldsInserted(was, Fields(), key, value, small);
      }
    }

    /** Unsets one key; a missing node is reported and changes nothing. */
    method TryDelete(key: Bytes) returns (missing: bool)
      requires Valid()
      modifies this`root
      ensures Valid() && (old(IsWhole()) ==> !missing && IsWhole())
      ensures missing <==> old(Misses(Fields(), DeleteOp(key)))
      ensures Fields() == old(Delete(Fields(), key, small)) && (missing ==> Fields() == old(Fields()))
      ensures !missing ==> forall k :: Holds(Fields(), k) == if k != key then old(Holds(Fields(), k)) else None
    {
      ghost var was := Fields();
      KeyOk(was, key, small);
      DeleteSound(was, key, small);
      P.DeleteMisses(root, KeybytesToHex(key), true, EnvOf(was, small));
      match N.Delete(root, KeybytesToHex(key), EnvOf(Fields(), small)) {
        case EditMissing => missing := true;
        case Edited(_, n) =>
          root, missing := n, false;
          HoldsDeleted(was, Fields(), key, small);
      }
    }

    method Hash() returns (h: Hash)
      requires Valid()
      modifies this`root
      ensures Valid() && Fields() == old(HashStep(Fields(), small)) && (old(IsWhole()) ==> IsWhole())
      ensures h == RootHash(Expand(root), small) && Expand(root) == old(Expand(root))
    {
      HashStepSound(Fields(), small);
      var r := HashRoot(Fields(), None, small);
      root := r.node;
      h := r.ref.h;
    }

    method Commit() returns (h: Hash)
      requires Valid()
      modifies this`root, this`cachegen, this`db
      ensures Valid() && Fields() == old(CommitStep(Fields(), small)) && (old(IsWhole()) ==> IsWhole())
      ensures old(IsWhole()) && !old(root).Nil? ==> AvailBlob(HashBlob(h), db)
      ensures h == RootHash(Expand(root), small) && Expand(root) == old(Expand(root))
      ensures H.Grows(old(db), db)
    {
      CommitStepSound(Fields(), small);
      if Whole(Fields(), small) && !root.Nil? { CommitStores(Fields(), small); }
      var r := HashRoot(Fields(), Some(db), small);
      root, db := r.node, H.DbAfter(r.db, db);
      cachegen := NextGen(cachegen);
      h := r.ref.h;
    }
  }
}
