/**
 Which nodes an operation on a partly loaded trie has to load (trie/trie.go), said by the position of
 the nodes alone: those on the path of the key, and for a deletion the entry that is left over when a
 full node collapses.  `tryGet`, `insert` and `delete` report a missing node exactly when one of these
 is not in the database.
 */
module NodePaths {
  import opened Encoding
  import opened Tree
  import opened Nodes
  import opened NodeOps
  import T = TreeOps

  /** The node at the end of the path, through loaded and stored nodes alike. */
  function NodeAt(n: Node, p: Key): Option<Node>
    decreases |p|, n.HashNode?
  {
    if p == [] then Some(n)
    else
      match n
      case Short(sk, val, _) => if sk != [] && sk <= p then NodeAt(val, p[|sk|..]) else None
      case Full(kids, _) => if 0 <= p[0] < |kids| then NodeAt(kids[p[0]], p[1..]) else None
      case HashNode(h) => if IsStored(n) then NodeAt(Opened(n), p) else None
      case _ => None
  }

  /** A hash of an inner node. */
  predicate IsStored(n: Node) {
    n.HashNode? && n.h.Keccak? && (n.h.blob.ShortBlob? || n.h.blob.FullBlob?)
  }

  /** The node itself, or the stored node it is the hash of. */
  function Opened(n: Node): (r: Node)
    ensures IsStored(n) ==> r.Short? || r.Full?
  {
    if IsStored(n) then DecodeInner(n.h.blob) else n
  }

  /** After `i` nibbles of the key there is an unloaded node that is not in the database. */
  predicate MissingAt(n: Node, key: Key, i: nat, db: Store)
    requires i <= |key|
  {
    var m := NodeAt(n, key[..i]);
    m.Some? && m.value.HashNode? && m.value.h !in db
  }

  /** A node on the path of the key is missing. */
  ghost predicate Blocked(n: Node, key: Key, db: Store) {
    exists i: nat {:trigger MissingAt(n, key, i, db)} :: i <= |key| && MissingAt(n, key, i, db)
  }

  /** The tree holds one pair, under the key. */
  predicate OnlyLeaf(t: Tree, key: Key) {
    if t.Val? then key == [] else t.Ext? && t.key == key && t.sub.Val?
  }

  /** The full node has two entries: one that holds the key alone, and an unloaded one at `j` that is not in the database. */
  predicate LeftOver(f: Node, key: Key, j: nat, db: Store) {
    && f.Full? && |f.kids| == 17 && j < 16 && key != [] && 0 <= key[0] < 17 && key[0] != j
    && f.kids[j].HashNode? && f.kids[j].h !in db
    && (forall k :: 0 <= k < 17 && k != j && k != key[0] ==> f.kids[k].Nil?)
    && OnlyLeaf(Expand(f.kids[key[0]]), key[1..])
  }

  predicate LeftOverAt(n: Node, key: Key, i: nat, j: nat, db: Store)
    requires i <= |key|
  {
    var m := NodeAt(n, key[..i]);
    m.Some? && LeftOver(Opened(m.value), key[i..], j, db)
  }

  /** Deleting the key makes a full node on its path collapse onto a missing node. */
  ghost predicate Strands(n: Node, key: Key, db: Store) {
    exists i: nat, j: nat {:trigger LeftOverAt(n, key, i, j, db)} :: i <= |key| && LeftOverAt(n, key, i, j, db)
  }

  // ---------------------------------------------------------------------------
  // One step down
  // ---------------------------------------------------------------------------

  /** The part of the key a node takes off, and the node below. */
  predicate Below(n: Node, key: Key, k: nat, m: Node) {
    && k <= |key|
    && (n.Short? ==> 0 < k && k == |n.key| && n.key <= key && m == n.val)
    && (n.Full? ==> k == 1 && 0 <= key[0] < |n.kids| && m == n.kids[key[0]])
    && (n.Short? || n.Full?)
  }

  lemma {:induction false} AtBelow(n: Node, key: Key, k: nat, m: Node, i: nat)
    requires Below(n, key, k, m) && i <= |key|
    ensures i >= k ==> NodeAt(n, key[..i]) == NodeAt(m, key[k..][..i - k])
    ensures 0 < i < k ==> NodeAt(n, key[..i]).None?
  {
    if i >= k {
      assert key[..i][k..] == key[k..][..i - k];
      assert n.Short? ==> n.key <= key[..i];
    }
  }

  lemma {:induction false} BlockedBelow(n: Node, key: Key, k: nat, m: Node, db: Store)
    requires Below(n, key, k, m)
    ensures Blocked(n, key, db) <==> Blocked(m, key[k..], db)
  {
    forall i: nat | i <= |key| ensures MissingAt(n, key, i, db) <==> i >= k && MissingAt(m, key[k..], i - k, db) {
      AtBelow(n, key, k, m, i);
    }
    if Blocked(m, key[k..], db) {
      var i: nat :| i <= |key[k..]| && MissingAt(m, key[k..], i, db);
      assert MissingAt(n, key, i + k, db);
    }
  }

  lemma {:induction false} StrandsBelow(n: Node, key: Key, k: nat, m: Node, db: Store)
    requires Below(n, key, k, m)
    ensures Strands(n, key, db) <==> Strands(m, key[k..], db) || exists j: nat :: LeftOver(n, key, j, db)
  {
    forall i: nat, j: nat | i <= |key| && LeftOverAt(n, key, i, j, db)
      ensures Strands(m, key[k..], db) || LeftOver(n, key, j, db)
    {
      StrandsDown(n, key, k, m, i, j, db);
    }
    forall i: nat, j: nat | i <= |key[k..]| && LeftOverAt(m, key[k..], i, j, db) ensures Strands(n, key, db) { StrandsUp(n, key, k, m, i, j, db); }
    forall j: nat | LeftOver(n, key, j, db) ensures Strands(n, key, db) { StrandsHere(n, key, j, db); }
  }

  lemma {:induction false} StrandsDown(n: Node, key: Key, k: nat, m: Node, i: nat, j: nat, db: Store)
    requires Below(n, key, k, m) && i <= |key| && LeftOverAt(n, key, i, j, db)
    ensures Strands(m, key[k..], db) || LeftOver(n, key, j, db)
  {
    LeftOverBelow(n, key, k, m, i, j, db);
  }

  lemma {:induction false} StrandsUp(n: Node, key: Key, k: nat, m: Node, i: nat, j: nat, db: Store)
    requires Below(n, key, k, m) && i <= |key[k..]| && LeftOverAt(m, key[k..], i, j, db)
    ensures Strands(n, key, db)
  {
    LeftOverBelow(n, key, k, m, i + k, j, db);
  }

  lemma {:induction false} StrandsHere(n: Node, key: Key, j: nat, db: Store)
    requires LeftOver(n, key, j, db)
    ensures Strands(n, key, db)
  {
    assert key[0..] == key;
    assert LeftOverAt(n, key, 0, j, db);
  }

  lemma {:induction false} LeftOverBelow(n: Node, key: Key, k: nat, m: Node, i: nat, j: nat, db: Store)
    requires Below(n, key, k, m) && i <= |key|
    ensures LeftOverAt(n, key, i, j, db) <==> (i >= k && LeftOverAt(m, key[k..], i - k, j, db)) || (i == 0 && LeftOver(n, key, j, db))
  {
    AtBelow(n, key, k, m, i);
    if i == 0 { assert key[0..] == key; }
    if i >= k { assert key[k..][i - k..] == key[i..]; }
  }

  /** A path that ends at the node, or leaves it at once. */
  lemma {:induction false} EndsHere(n: Node, key: Key, db: Store)
    requires !n.HashNode? && (forall i: nat :: 0 < i <= |key| ==> NodeAt(n, key[..i]).None?)
    ensures !Blocked(n, key, db) && (Strands(n, key, db) ==> exists j: nat :: LeftOver(n, key, j, db))
  {
    if i: nat, j: nat :| i <= |key| && LeftOverAt(n, key, i, j, db) { assert key[0..] == key; }
  }

  /** A loaded node is seen from its hash. */
  lemma {:induction false} AtLoaded(n: Node, rn: Node, key: Key, env: Env)
    requires StoreOk(env) && n.HashNode? && Resolve(n.h, env) == Some(rn)
    ensures Blocked(n, key, env.db) <==> Blocked(rn, key, env.db)
    ensures Strands(n, key, env.db) <==> Strands(rn, key, env.db)
  {
    forall i: nat | i <= |key| ensures MissingAt(n, key, i, env.db) <==> MissingAt(rn, key, i, env.db) { LoadedMissing(n, rn, key, i, env); }
    forall i: nat, j: nat | i <= |key| ensures LeftOverAt(n, key, i, j, env.db) <==> LeftOverAt(rn, key, i, j, env.db) {
      LoadedLeftOver(n, rn, key, i, j, env);
    }
  }

  lemma {:induction false} LoadedAt(n: Node, rn: Node, p: Key, env: Env)
    requires StoreOk(env) && n.HashNode? && Resolve(n.h, env) == Some(rn)
    ensures IsStored(n) && SameInside(Opened(n), rn) && (p != [] ==> NodeAt(n, p) == NodeAt(rn, p))
  {
    ResolvedInside(n.h, rn, env);
    if p != [] { InsideAt(Opened(n), rn, p); }
  }

  /** Nodes that differ in their flags only. */
  predicate SameInside(a: Node, b: Node) {
    (a.Short? && b.Short? && a.key == b.key && a.val == b.val) || (a.Full? && b.Full? && a.kids == b.kids)
  }

  lemma {:induction false} ResolvedInside(h: Hash, rn: Node, env: Env)
    requires StoreOk(env) && Resolve(h, env) == Some(rn)
    ensures IsStored(HashNode(h)) && SameInside(Opened(HashNode(h)), rn)
  {
    var b := env.db[h];
    assert h == Keccak(b) && IsInner(ExpandBlob(b)) && b == BlobOf(ExpandBlob(b), env.small);
    assert rn == Decode(b, h, env.gen);
  }

  lemma {:induction false} InsideAt(a: Node, b: Node, p: Key)
    requires SameInside(a, b) && p != []
    ensures NodeAt(a, p) == NodeAt(b, p)
  {
  }

  lemma {:induction false} LoadedMissing(n: Node, rn: Node, key: Key, i: nat, env: Env)
    requires StoreOk(env) && n.HashNode? && Resolve(n.h, env) == Some(rn) && i <= |key|
    ensures MissingAt(n, key, i, env.db) <==> MissingAt(rn, key, i, env.db)
  {
    LoadedAt(n, rn, key[..i], env);
  }

  lemma {:induction false} LoadedLeftOver(n: Node, rn: Node, key: Key, i: nat, j: nat, env: Env)
    requires StoreOk(env) && n.HashNode? && Resolve(n.h, env) == Some(rn) && i <= |key|
    ensures LeftOverAt(n, key, i, j, env.db) <==> LeftOverAt(rn, key, i, j, env.db)
  {
    LoadedAt(n, rn, key[..i], env);
  }

  lemma {:induction false} LeavesShort(n: Node, key: Key, i: nat)
    requires n.Short? && !(n.key <= key) && 0 < i <= |key|
    ensures NodeAt(n, key[..i]).None?
  {
    assert !(n.key <= key[..i]);
  }

  lemma {:induction false} ShortBelow(n: Node, key: Key)
    requires n.Short? && n.key != [] && n.key <= key
    ensures Below(n, key, |n.key|, n.val)
  {
  }

  /** The path of a key leads to a value exactly when the tree holds it. */
  lemma {:induction false} AtIsLookup(n: Node, key: Key, v: Bytes, root: bool, env: Env)
    requires Callable(n, key, env) && Coherent(n, root, env.small)
    ensures NodeAt(n, key) == Some(Value(v)) <==> Lookup(Expand(n), key) == Some(v)
    decreases Expand(n), n.HashNode?
  {
    match n
    case Nil =>
    case Value(_) =>
    case Short(sk, val, _) =>
      if sk <= key {
        KeyBelow(sk, key);
        AtIsLookup(val, key[|sk|..], v, false, env);
      }
    case Full(kids, _) =>
      KeyBelowBranch(key);
      assert Expand(n).kids[key[0]] == Expand(kids[key[0]]);
      AtIsLookup(kids[key[0]], key[1..], v, false, env);
    case HashNode(h) =>
      var t := Expand(n);
      DecodeCoherent(t, false, env.small);
      ExpandDecodeInner(h.blob);
      AtIsLookup(Opened(n), key, v, false, env);
  }

  // ---------------------------------------------------------------------------
  // What the operations miss
  // ---------------------------------------------------------------------------

  lemma {:induction false} ShortStays(n: Node, key: Key, db: Store)
    requires n.Short? && !(n.key <= key)
    ensures !Blocked(n, key, db) && !Strands(n, key, db)
  {
    forall i: nat | 0 < i <= |key| ensures NodeAt(n, key[..i]).None? { LeavesShort(n, key, i); }
    EndsHere(n, key, db);
  }

  lemma {:induction false} FullBelow(n: Node, key: Key, env: Env)
    requires n.Full? && Callable(n, key, env)
    ensures Terminated(key) && 0 <= key[0] < 17 && Callable(n.kids[key[0]], key[1..], env) && Below(n, key, 1, n.kids[key[0]])
    ensures Expand(n).kids[key[0]] == Expand(n.kids[key[0]])
  {
    KeyBelowBranch(key);
    assert Expand(n).kids[key[0]] == Expand(n.kids[key[0]]);
  }

  /** A lookup misses a node exactly when one on the path of the key is not in the database. */
  lemma {:induction false} GetMisses(n: Node, key: Key, env: Env)
    requires Callable(n, key, env)
    ensures TryGet(n, key, env).GetMissing? <==> Blocked(n, key, env.db)
    decreases Expand(n), n.HashNode?
  {
    match n
    case Nil => EndsHere(n, key, env.db);
    case Value(_) => EndsHere(n, key, env.db);
    case Short(sk, val, _) =>
      assert |key| < |sk| || sk != key[..|sk|] <==> !(sk <= key);
      if sk <= key {
        KeyBelow(sk, key);
        GetMisses(val, key[|sk|..], env);
        ShortBelow(n, key);
        BlockedBelow(n, key, |sk|, val, env.db);
      } else {
        ShortStays(n, key, env.db);
      }
    case Full(kids, _) =>
      FullBelow(n, key, env);
      GetMisses(kids[key[0]], key[1..], env);
      BlockedBelow(n, key, 1, kids[key[0]], env.db);
    case HashNode(h) =>
      if h in env.db {
        var rn := Resolve(h, env).value;
        ResolveSound(h, true, env);
        GetMisses(rn, key, env);
        AtLoaded(n, rn, key, env);
      } else {
        assert MissingAt(n, key, 0, env.db);
      }
  }

  /** After a lookup the whole path is loaded: the next one needs no database. */
  lemma {:induction false} GetLoads(n: Node, key: Key, env: Env)
    requires Callable(n, key, env) && TryGet(n, key, env).Got?
    ensures !Blocked(TryGet(n, key, env).node, key, map[])
    decreases Expand(n), n.HashNode?
  {
    match n
    case Nil => EndsHere(n, key, map[]);
    case Value(_) => EndsHere(n, key, map[]);
    case Short(sk, val, _) =>
      assert |key| < |sk| || sk != key[..|sk|] <==> !(sk <= key);
      if sk <= key {
        KeyBelow(sk, key);
        GetLoads(val, key[|sk|..], env);
        ShortBelow(TryGet(n, key, env).node, key);
        BlockedBelow(TryGet(n, key, env).node, key, |sk|, TryGet(n, key, env).node.val, map[]);
      } else {
        ShortStays(n, key, map[]);
      }
    case Full(kids, _) =>
      FullBelow(n, key, env);
      GetLoads(kids[key[0]], key[1..], env);
      BlockedBelow(TryGet(n, key, env).node, key, 1, TryGet(n, key, env).node.kids[key[0]], map[]);
    case HashNode(h) =>
      ResolveSound(h, true, env);
      GetLoads(Resolve(h, env).value, key, env);
  }

  lemma {:induction false} ValueHere(n: Node, key: Key, root: bool, env: Env)
    requires Callable(n, key, env) && Coherent(n, root, env.small) && key == []
    ensures !n.HashNode? && !Blocked(n, key, env.db)
  {
    EndsHere(n, key, env.db);
  }

  /** An insertion misses a node exactly when one on the path of the key is not in the database. */
  lemma {:induction false} InsertMisses(n: Node, key: Key, v: Bytes, root: bool, env: Env)
    requires Callable(n, key, env) && Coherent(n, root, env.small)
    ensures Insert(n, key, v, env).EditMissing? <==> Blocked(n, key, env.db)
    decreases Expand(n), n.HashNode?
  {
    if key == [] {
      ValueHere(n, key, root, env);
      return;
    }
    match n
    case Nil => EndsHere(n, key, env.db);
    case Value(_) =>
    case Short(sk, val, _) =>
      T.SplitPoint(key, sk);
      if sk <= key {
        KeyBelow(sk, key);
        InsertMisses(val, key[|sk|..], v, false, env);
      }
      InsertShortMisses(n, key, v, root, env);
    case Full(kids, _) =>
      FullBelow(n, key, env);
      InsertMisses(kids[key[0]], key[1..], v, false, env);
      BlockedBelow(n, key, 1, kids[key[0]], env.db);
    case HashNode(h) =>
      if h in env.db {
        var rn := Resolve(h, env).value;
        ResolveSound(h, root, env);
        InsertMisses(rn, key, v, root, env);
        AtLoaded(n, rn, key, env);
      } else {
        assert MissingAt(n, key, 0, env.db);
      }
  }

  lemma {:induction false} InsertShortMisses(n: Node, key: Key, v: Bytes, root: bool, env: Env)
    requires n.Short? && Callable(n, key, env) && Coherent(n, root, env.small) && key != []
    requires n.key <= key ==> Callable(n.val, key[|n.key|..], env)
    requires n.key <= key ==> (Insert(n.val, key[|n.key|..], v, env).EditMissing? <==> Blocked(n.val, key[|n.key|..], env.db))
    ensures Insert(n, key, v, env).EditMissing? <==> Blocked(n, key, env.db)
  {
    T.SplitPoint(key, n.key);
    PrefixOf(key, n.key);
    if n.key <= key {
      ShortBelow(n, key);
      BlockedBelow(n, key, |n.key|, n.val, env.db);
    } else {
      ShortStays(n, key, env.db);
    }
  }

  lemma {:induction false} PrefixOf(key: Key, sk: Key)
    ensures PrefixLen(key, sk) == |sk| <==> sk <= key
  {
    if sk <= key { PrefixLenUnique(key, sk, |sk|); }
  }

  /** A deletion leaves nothing of a subtree exactly when that holds the key alone. */
  lemma {:induction false} DeleteEmpties(t: Tree, key: Key)
    requires WF(t, key == []) && (key == [] || Terminated(key)) && !t.Empty?
    ensures T.Delete(t, key).Empty? <==> OnlyLeaf(t, key)
  {
    match t
    case Val(_) =>
    case Ext(sk, sub) =>
      T.SplitPoint(key, sk);
      PrefixOf(key, sk);
      if sk == key { assert HasTerm(sk); }
    case Branch(kids) =>
      KeyBelowBranch(key);
  }

  /** What is left when all but one entry are nil. */
  lemma {:induction false} OnlyEntryIs(kids: seq<Node>)
    ensures OnlyEntry(kids) >= 0 ==> forall i :: 0 <= i < |kids| ==> (!kids[i].Nil? <==> i == OnlyEntry(kids))
    ensures OnlyEntry(kids) == -1 <==> forall i :: 0 <= i < |kids| ==> kids[i].Nil?
    ensures OnlyEntry(kids) == -2 ==> exists i, j :: 0 <= i < j < |kids| && !kids[i].Nil? && !kids[j].Nil?
  {
    if |kids| > 0 {
      var n := |kids| - 1;
      var front := kids[..n];
      OnlyEntryIs(front);
      if OnlyEntry(front) == -2 {
        var i, j :| 0 <= i < j < |front| && !front[i].Nil? && !front[j].Nil?;
        assert !kids[i].Nil? && !kids[j].Nil?;
      } else if OnlyEntry(front) >= 0 {
        assert !kids[OnlyEntry(front)].Nil?;
      }
      forall i | 0 <= i < |kids| ensures i < n ==> kids[i] == front[i] {}
    }
  }

  /** A full node collapses onto a missing entry exactly when the entry is left over. */
  lemma {:induction false} ShrinkMisses(n: Node, key: Key, nn: Node, root: bool, env: Env)
    requires n.Full? && Callable(n, key, env) && Coherent(n, root, env.small) && Terminated(key) && 0 <= key[0] < 17
    requires WF(Expand(n.kids[key[0]]), key[1..] == []) && (key[1..] == [] || Terminated(key[1..])) && Lookup(Expand(n.kids[key[0]]), key[1..]).Some?
    requires Expand(nn) == T.Delete(Expand(n.kids[key[0]]), key[1..]) && Coherent(nn, false, env.small) && !nn.HashNode?
    ensures Shrink(n.kids[key[0] := nn], env).EditMissing? <==> exists j: nat :: LeftOver(n, key, j, env.db)
  {
    var i, kids := key[0], n.kids[key[0] := nn];
    OnlyEntryIs(kids);
    NilIsEmpty(nn, env.small);
    DeleteEmpties(Expand(n.kids[i]), key[1..]);
    var pos := OnlyEntry(kids);
    if Shrink(kids, env).EditMissing? {
      assert pos != i && kids[i].Nil?;
      forall k | 0 <= k < 17 && k != pos && k != i ensures n.kids[k].Nil? { assert kids[k] == n.kids[k]; }
      assert LeftOver(n, key, pos, env.db);
    }
    if j: nat :| LeftOver(n, key, j, env.db) {
      assert kids[j] == n.kids[j] && forall k :: 0 <= k < 17 && k != j ==> kids[k].Nil?;
    }
  }

  /** A deletion misses a node exactly when one on the path is missing, or one that a full node would collapse onto. */
  lemma {:induction false} DeleteMisses(n: Node, key: Key, root: bool, env: Env)
    requires Callable(n, key, env) && Coherent(n, root, env.small)
    ensures Delete(n, key, env).EditMissing? <==> Blocked(n, key, env.db) || Strands(n, key, env.db)
    decreases Expand(n), n.HashNode?
  {
    match n
    case Nil => EndsHere(n, key, env.db);
    case Value(_) => EndsHere(n, key, env.db);
    case Short(sk, val, _) =>
      T.SplitPoint(key, sk);
      if sk <= key {
        KeyBelow(sk, key);
        DeleteMisses(val, key[|sk|..], false, env);
      }
      DeleteShortMisses(n, key, root, env);
    case Full(kids, _) =>
      FullBelow(n, key, env);
      DeleteMisses(kids[key[0]], key[1..], false, env);
      BlockedBelow(n, key, 1, kids[key[0]], env.db);
      StrandsBelow(n, key, 1, kids[key[0]], env.db);
      DeleteFullMisses(n, key, root, env);
    case HashNode(h) =>
      if h in env.db {
        var rn := Resolve(h, env).value;
        ResolveSound(h, root, env);
        DeleteMisses(rn, key, root, env);
        AtLoaded(n, rn, key, env);
      } else {
        assert MissingAt(n, key, 0, env.db);
      }
  }

  lemma {:induction false} DeleteShortMisses(n: Node, key: Key, root: bool, env: Env)
    requires n.Short? && Callable(n, key, env) && Coherent(n, root, env.small) && n.key != []
    requires n.key <= key ==> Callable(n.val, key[|n.key|..], env)
    requires n.key <= key ==> (Delete(n.val, key[|n.key|..], env).EditMissing? <==> Blocked(n.val, key[|n.key|..], env.db) || Strands(n.val, key[|n.key|..], env.db))
    ensures Delete(n, key, env).EditMissing? <==> Blocked(n, key, env.db) || Strands(n, key, env.db)
  {
    T.SplitPoint(key, n.key);
    PrefixOf(key, n.key);
    if n.key <= key {
      ShortBelow(n, key);
      BlockedBelow(n, key, |n.key|, n.val, env.db);
      StrandsBelow(n, key, |n.key|, n.val, env.db);
    } else {
      ShortStays(n, key, env.db);
    }
  }

  lemma {:induction false} DeleteFullMisses(n: Node, key: Key, root: bool, env: Env)
    requires n.Full? && Callable(n, key, env) && Coherent(n, root, env.small)
    requires Terminated(key) && 0 <= key[0] < 17 && Callable(n.kids[key[0]], key[1..], env)
    ensures Delete(n, key, env).EditMissing? <==>
              Delete(n.kids[key[0]], key[1..], env).EditMissing? || exists j: nat :: LeftOver(n, key, j, env.db)
  {
    var kid, rest := n.kids[key[0]], key[1..];
    NodeOps.DeleteSound(kid, rest, false, env);
    var r := Delete(kid, rest, env);
    if r.Edited? && r.dirty {
      ShrinkMisses(n, key, r.node, root, env);
    } else if r.Edited? {
      forall j: nat ensures !LeftOver(n, key, j, env.db) { LeafIsThere(Expand(kid), rest); }
    }
  }

  lemma {:induction false} LeafIsThere(t: Tree, key: Key)
    ensures OnlyLeaf(t, key) ==> Lookup(t, key).Some?
  {
    assert key[|key|..] == [];
  }
}
