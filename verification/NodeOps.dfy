/**
 `tryGet`, `insert` and `delete` of trie/trie.go: recursive copy-on-write rebuilds of a
 partly loaded trie.  Each is shown to do on the nodes what its namesake in `TreeOps` does
 on the tree the nodes stand for, to keep every cached hash right, and never to miss a node
 when everything the trie refers to is stored.
 */
module NodeOps {
  import opened Encoding
  import opened Tree
  import opened Nodes
  import T = TreeOps

  datatype GetResult = Got(value: Option<Bytes>, node: Node, resolved: bool) | GetMissing

  datatype EditResult = Edited(dirty: bool, node: Node) | EditMissing

  /** `newFlag`: a new node is dirty and has no hash yet. */
  function NewFlags(env: Env): Flags {
    Flags(None, env.gen, true)
  }

  /** The trie and key an operation is called with: a well-formed position and a key of that position. */
  ghost predicate Callable(n: Node, key: Key, env: Env) {
    StoreOk(env) && WF(Expand(n), key == []) && (key == [] || Terminated(key))
  }

  function TryGet(n: Node, key: Key, env: Env): GetResult
    requires Callable(n, key, env)
    decreases Expand(n), n.HashNode?
  {
    match n
    case Nil => Got(None, Nil, false)
    case Value(v) => Got(Some(v), n, false)
    case Short(sk, val, flags) =>
      if |key| < |sk| || sk != key[..|sk|] then Got(None, n, false)
      else
        KeyBelow(sk, key);
        (match TryGet(val, key[|sk|..], env)
         case GetMissing => GetMissing
         case Got(v, nn, resolved) =>
           Got(v, if resolved then Short(sk, nn, flags.(gen := env.gen)) else n, resolved))
    case Full(kids, flags) =>
      KeyBelowBranch(key);
      var i := key[0];
      assert Expand(n).kids[i] == Expand(kids[i]);
      (match TryGet(kids[i], key[1..], env)
       case GetMissing => GetMissing
       case Got(v, nn, resolved) =>
         Got(v, if resolved then Full(kids[i := nn], flags.(gen := env.gen)) else n, resolved))
    case HashNode(h) =>
      match Resolve(h, env)
      case None => GetMissing
      case Some(child) =>
        ResolveSound(h, true, env);
        match TryGet(child, key, env)
        case GetMissing => GetMissing
        case Got(v, nn, _) => Got(v, nn, true)
  }

  /** `insert` into nil. */
  function Attach(key: Key, n: Node, env: Env): Node {
    if key == [] then n else Short(key, n, NewFlags(env))
  }

  function NilKids(): (kids: seq<Node>)
    ensures |kids| == 17 && forall i :: 0 <= i < 17 ==> kids[i] == Nil
  {
    seq(17, _ => Nil)
  }

  function Insert(n: Node, key: Key, v: Bytes, env: Env): EditResult
    requires Callable(n, key, env)
    decreases Expand(n), n.HashNode?
  {
    if key == [] then
      Edited(if n.Value? then n.v != v else true, Value(v))
    else
      match n
      case Nil => Edited(true, Short(key, Value(v), NewFlags(env)))
      case Short(sk, val, _) =>
        T.SplitPoint(key, sk);
        var m := PrefixLen(key, sk);
        if m == |sk| then
          KeyBelow(sk, key);
          match Insert(val, key[m..], v, env)
          case EditMissing => EditMissing
          case Edited(dirty, nn) =>
            if dirty then Edited(true, Short(sk, nn, NewFlags(env))) else Edited(false, n)
        else
          var kept := Attach(sk[m + 1..], val, env);
          var added := Attach(key[m + 1..], Value(v), env);
          var branch := Full(NilKids()[sk[m] := kept][key[m] := added], NewFlags(env));
          Edited(true, if m == 0 then branch else Short(key[..m], branch, NewFlags(env)))
      case Full(kids, _) =>
        KeyBelowBranch(key);
        var i := key[0];
        assert Expand(n).kids[i] == Expand(kids[i]);
        (match Insert(kids[i], key[1..], v, env)
         case EditMissing => EditMissing
         case Edited(dirty, nn) =>
           if dirty then Edited(true, Full(kids[i := nn], NewFlags(env))) else Edited(false, n))
      case HashNode(h) =>
        (match Resolve(h, env)
         case None => EditMissing
         case Some(rn) =>
           ResolveSound(h, true, env);
           match Insert(rn, key, v, env)
           case EditMissing => EditMissing
           case Edited(dirty, nn) => if dirty then Edited(true, nn) else Edited(false, rn))
      case Value(_) =>
        assert false;  // the panic branch of the source
        EditMissing
  }

  /** The index of the only non-nil entry, -1 for none, -2 for several. */
  function OnlyEntry(kids: seq<Node>): (pos: int)
    ensures -2 <= pos < |kids|
  {
    if |kids| == 0 then -1
    else
      var n := |kids| - 1;
      var rest := OnlyEntry(kids[..n]);
      if kids[n].Nil? then rest else if rest == -1 then n else -2
  }

  /** The child-counting loop of `delete`. */
  method CountEntries(kids: seq<Node>) returns (pos: int)
    ensures pos == OnlyEntry(kids)
  {
    pos := -1;
    for i := 0 to |kids|
      invariant pos == OnlyEntry(kids[..i]) && pos != -2
    {
      assert kids[..i + 1][..i] == kids[..i];
      if kids[i] != Nil {
        if pos == -1 {
          pos := i;
        } else {
          pos := -2;
          SeveralStay(kids, i + 1);
          break;
        }
      }
    }
    assert kids[..|kids|] == kids;
  }

  lemma {:induction false} SeveralStay(kids: seq<Node>, i: nat)
    requires i <= |kids| && OnlyEntry(kids[..i]) == -2
    ensures OnlyEntry(kids) == -2
    decreases |kids| - i
  {
    if i < |kids| {
      assert kids[..i + 1][..i] == kids[..i];
      SeveralStay(kids, i + 1);
    } else {
      assert kids[..i] == kids;
    }
  }

  /** The short node that replaces a full node with one entry left; an unloaded entry is loaded to look at its kind. */
  function Reduce(pos: int, kid: Node, env: Env): EditResult
    requires StoreOk(env)
  {
    if pos != TERMINATOR then
      var r := if kid.HashNode? then Resolve(kid.h, env) else Some(kid);
      match r
      case None => EditMissing
      case Some(cnode) =>
        if cnode.Short? then Edited(true, Short([pos] + cnode.key, cnode.val, NewFlags(env)))
        else Edited(true, Short([pos], kid, NewFlags(env)))
    else
      Edited(true, Short([pos], kid, NewFlags(env)))
  }

  function Shrink(kids: seq<Node>, env: Env): EditResult
    requires StoreOk(env)
  {
    var pos := OnlyEntry(kids);
    if pos >= 0 then Reduce(pos, kids[pos], env) else Edited(true, Full(kids, NewFlags(env)))
  }

  function Delete(n: Node, key: Key, env: Env): EditResult
    requires Callable(n, key, env)
    decreases Expand(n), n.HashNode?
  {
    match n
    case Nil => Edited(false, Nil)
    case Value(_) => Edited(true, Nil)
    case Short(sk, val, _) =>
      T.SplitPoint(key, sk);
      var m := PrefixLen(key, sk);
      if m < |sk| then Edited(false, n)
      else if m == |key| then Edited(true, Nil)
      else
        KeyBelow(sk, key);
        (match Delete(val, key[m..], env)
         case EditMissing => EditMissing
         case Edited(dirty, child) =>
           if !dirty then Edited(false, n)
           else if child.Short? then Edited(true, Short(sk + child.key, child.val, NewFlags(env)))
           else Edited(true, Short(sk, child, NewFlags(env))))
    case Full(kids, _) =>
      KeyBelowBranch(key);
      var i := key[0];
      assert Expand(n).kids[i] == Expand(kids[i]);
      (match Delete(kids[i], key[1..], env)
       case EditMissing => EditMissing
       case Edited(dirty, nn) =>
         if !dirty then Edited(false, n)
         else Shrink(kids[i := nn], env))
    case HashNode(h) =>
      match Resolve(h, env)
      case None => EditMissing
      case Some(rn) =>
        ResolveSound(h, true, env);
        match Delete(rn, key, env)
        case EditMissing => EditMissing
        case Edited(dirty, nn) => if dirty then Edited(true, nn) else Edited(false, rn)
  }

  // ---------------------------------------------------------------------------
  // Lookup
  // ---------------------------------------------------------------------------

  lemma {:induction false} ExpandUpdate(kids: seq<Node>, flags: Flags, i: int, n: Node, flags': Flags)
    requires 0 <= i < |kids|
    ensures Expand(Full(kids[i := n], flags')) == Branch(Expand(Full(kids, flags)).kids[i := Expand(n)])
  {
    assert Expand(Full(kids[i := n], flags')).kids == Expand(Full(kids, flags)).kids[i := Expand(n)];
  }

  /** What `tryGet` promises of its result: the tree's answer, and the same tree with every cached hash still right. */
  ghost predicate Read(r: GetResult, t: Tree, key: Key, root: bool, small: Blob -> bool) {
    r.Got? ==> r.value == Lookup(t, key) && Expand(r.node) == t && Coherent(r.node, root, small)
  }

  /** A lookup answers as the tree does, and loading nodes on the way changes neither the tree nor a cached hash. */
  lemma {:induction false} TryGetSound(n: Node, key: Key, root: bool, env: Env)
    requires Callable(n, key, env) && Coherent(n, root, env.small)
    ensures Read(TryGet(n, key, env), Expand(n), key, root, env.small)
    ensures Avail(n, root, env) ==> TryGet(n, key, env).Got? && Avail(TryGet(n, key, env).node, root, env)
    decreases Expand(n), n.HashNode?
  {
    match n
    case Nil =>
    case Value(v) =>
    case Short(sk, val, flags) =>
      assert |key| < |sk| || sk != key[..|sk|] <==> !(sk <= key);
      if sk <= key {
        KeyBelow(sk, key);
        TryGetSound(val, key[|sk|..], false, env);
      }
    case Full(kids, flags) =>
      KeyBelowBranch(key);
      assert Expand(n).kids[key[0]] == Expand(kids[key[0]]);
      TryGetSound(kids[key[0]], key[1..], false, env);
      TryGetFull(n, key, root, env);
    case HashNode(h) =>
      if h in env.db {
        ResolveSound(h, root, env);
        TryGetSound(Resolve(h, env).value, key, root, env);
      }
  }

  lemma {:induction false} TryGetFull(n: Node, key: Key, root: bool, env: Env)
    requires n.Full? && Callable(n, key, env) && Coherent(n, root, env.small)
    requires Terminated(key) && 0 <= key[0] < 17 && Callable(n.kids[key[0]], key[1..], env)
    requires Read(TryGet(n.kids[key[0]], key[1..], env), Expand(n.kids[key[0]]), key[1..], false, env.small)
    requires var r := TryGet(n.kids[key[0]], key[1..], env);
             Avail(n.kids[key[0]], false, env) ==> r.Got? && Avail(r.node, false, env)
    ensures Read(TryGet(n, key, env), Expand(n), key, root, env.small)
    ensures Avail(n, root, env) ==> TryGet(n, key, env).Got? && Avail(TryGet(n, key, env).node, root, env)
  {
    var i := key[0];
    assert Expand(n).kids[i] == Expand(n.kids[i]);
    var r := TryGet(n.kids[i], key[1..], env);
    if r.Got? {
      ExpandUpdate(n.kids, n.flags, i, r.node, n.flags.(gen := env.gen));
      assert Expand(n).kids[i := Expand(r.node)] == Expand(n).kids;
    }
  }

  // ---------------------------------------------------------------------------
  // Insertion
  // ---------------------------------------------------------------------------

  lemma {:induction false} ExpandSplit(sk: Key, val: Node, key: Key, v: Bytes, m: nat, env: Env)
    requires m < |sk| && m < |key| && 0 <= sk[m] < 17 && 0 <= key[m] < 17
    ensures Expand(Full(NilKids()[sk[m] := Attach(sk[m + 1..], val, env)]
                                 [key[m] := Attach(key[m + 1..], Value(v), env)], NewFlags(env)))
            == T.Split(sk, Expand(val), key, Val(v), m)
  {
    var f := NewFlags(env);
    var kept, added := Attach(sk[m + 1..], val, env), Attach(key[m + 1..], Value(v), env);
    ExpandUpdate(NilKids(), f, sk[m], kept, f);
    ExpandUpdate(NilKids()[sk[m] := kept], f, key[m], added, f);
    assert Expand(Full(NilKids(), f)).kids == T.NoKids();
  }

  lemma {:induction false} SplitCoherent(sk: Key, val: Node, key: Key, v: Bytes, m: nat, root: bool, env: Env)
    requires m < |sk| && m < |key| && 0 <= sk[m] < 17 && 0 <= key[m] < 17 && Coherent(val, false, env.small)
    ensures var branch := Full(NilKids()[sk[m] := Attach(sk[m + 1..], val, env)]
                                       [key[m] := Attach(key[m + 1..], Value(v), env)], NewFlags(env));
            && Coherent(branch, root, env.small)
            && (Avail(val, false, env) ==> Avail(branch, root, env))
  {
    var kept, added := Attach(sk[m + 1..], val, env), Attach(key[m + 1..], Value(v), env);
    assert Coherent(kept, false, env.small) && Coherent(added, false, env.small);
    assert Avail(added, false, env) && (Avail(val, false, env) ==> Avail(kept, false, env));
  }

  /** What `insert` promises of its result: the tree with the key set, with every cached hash still right. */
  ghost predicate Inserted(r: EditResult, t: Tree, key: Key, v: Bytes, root: bool, small: Blob -> bool)
    requires WF(t, key == []) && (key == [] || Terminated(key))
  {
    r.Edited? ==>
      && Expand(r.node) == T.Insert(t, key, v)
      && Coherent(r.node, root, small)
      && (!r.dirty <==> Lookup(t, key) == Some(v))
  }

  lemma {:induction false} InsertSound(n: Node, key: Key, v: Bytes, root: bool, env: Env)
    requires Callable(n, key, env) && Coherent(n, root, env.small) && v != []
    ensures Inserted(Insert(n, key, v, env), Expand(n), key, v, root, env.small)
    ensures Avail(n, root, env) ==> Insert(n, key, v, env).Edited? && Avail(Insert(n, key, v, env).node, root, env)
    decreases Expand(n), n.HashNode?
  {
    match n
    case Nil =>
    case Value(_) =>
    case Short(sk, val, flags) =>
      T.SplitPoint(key, sk);
      if PrefixLen(key, sk) == |sk| {
        KeyBelow(sk, key);
        InsertSound(val, key[|sk|..], v, false, env);
        UnchangedInsert(n, key, v, env);
      } else {
        InsertSplit(n, key, v, root, env);
      }
    case Full(kids, flags) =>
      KeyBelowBranch(key);
      assert Expand(n).kids[key[0]] == Expand(kids[key[0]]);
      InsertSound(kids[key[0]], key[1..], v, false, env);
      InsertFull(n, key, v, root, env);
    case HashNode(h) =>
      if h in env.db {
        ResolveSound(h, root, env);
        InsertSound(Resolve(h, env).value, key, v, root, env);
        UnchangedInsert(n, key, v, env);
      }
  }

  lemma {:induction false} InsertSplit(n: Node, key: Key, v: Bytes, root: bool, env: Env)
    requires n.Short? && Callable(n, key, env) && Coherent(n, root, env.small) && v != []
    requires key != [] && PrefixLen(key, n.key) < |n.key|
    ensures Inserted(Insert(n, key, v, env), Expand(n), key, v, root, env.small)
    ensures Avail(n, root, env) ==> Insert(n, key, v, env).Edited? && Avail(Insert(n, key, v, env).node, root, env)
  {
    T.SplitPoint(key, n.key);
    var m := PrefixLen(key, n.key);
    ExpandSplit(n.key, n.val, key, v, m, env);
    SplitCoherent(n.key, n.val, key, v, m, m == 0 && root, env);
  }

  lemma {:induction false} InsertFull(n: Node, key: Key, v: Bytes, root: bool, env: Env)
    requires n.Full? && Callable(n, key, env) && Coherent(n, root, env.small) && v != []
    requires Terminated(key) && 0 <= key[0] < 17 && Callable(n.kids[key[0]], key[1..], env)
    requires Inserted(Insert(n.kids[key[0]], key[1..], v, env), Expand(n.kids[key[0]]), key[1..], v, false, env.small)
    requires var r := Insert(n.kids[key[0]], key[1..], v, env);
             Avail(n.kids[key[0]], false, env) ==> r.Edited? && Avail(r.node, false, env)
    ensures Inserted(Insert(n, key, v, env), Expand(n), key, v, root, env.small)
    ensures Avail(n, root, env) ==> Insert(n, key, v, env).Edited? && Avail(Insert(n, key, v, env).node, root, env)
  {
    var i := key[0];
    assert Expand(n).kids[i] == Expand(n.kids[i]);
    UnchangedInsert(n, key, v, env);
    var r := Insert(n.kids[i], key[1..], v, env);
    if r.Edited? { ExpandUpdate(n.kids, n.flags, i, r.node, NewFlags(env)); }
  }

  lemma {:induction false} UnchangedInsert(n: Node, key: Key, v: Bytes, env: Env)
    requires Callable(n, key, env) && v != []
    ensures Lookup(Expand(n), key) == Some(v) ==> T.Insert(Expand(n), key, v) == Expand(n)
  {
    if Lookup(Expand(n), key) == Some(v) { T.InsertSame(Expand(n), key, v); }
  }

  // ---------------------------------------------------------------------------
  // Deletion
  // ---------------------------------------------------------------------------

  lemma {:induction false} NilIsEmpty(n: Node, small: Blob -> bool)
    requires Coherent(n, false, small)
    ensures Expand(n).Empty? <==> n.Nil?
  {
  }

  lemma {:induction false} OnlyEntryExpands(kids: seq<Node>, ts: seq<Tree>, small: Blob -> bool)
    requires |ts| == |kids| && forall i :: 0 <= i < |kids| ==> Coherent(kids[i], false, small) && ts[i] == Expand(kids[i])
    ensures OnlyEntry(kids) == T.OnlyKid(ts)
  {
    if |kids| > 0 {
      var n := |kids| - 1;
      OnlyEntryExpands(kids[..n], ts[..n], small);
      NilIsEmpty(kids[n], small);
    }
  }

  lemma {:induction false} ReduceSound(pos: int, kid: Node, root: bool, env: Env)
    requires StoreOk(env) && 0 <= pos < 17 && WF(Expand(kid), pos == TERMINATOR) && Coherent(kid, false, env.small)
    ensures var r := Reduce(pos, kid, env);
            r.Edited? ==> r.dirty && Expand(r.node) == T.Reduce(pos, Expand(kid)) && Coherent(r.node, root, env.small)
    ensures Avail(kid, false, env) ==> Reduce(pos, kid, env).Edited? && Avail(Reduce(pos, kid, env).node, root, env)
  {
    if kid.HashNode? && kid.h in env.db {
      ResolveSound(kid.h, false, env);
    }
  }

  lemma {:induction false} ShrinkSound(kids: seq<Node>, root: bool, env: Env)
    requires StoreOk(env) && |kids| == 17
    requires forall i :: 0 <= i < 17 ==> WF(Expand(kids[i]), i == TERMINATOR) && Coherent(kids[i], false, env.small)
    ensures var r := Shrink(kids, env);
            r.Edited? ==> r.dirty && Expand(r.node) == T.Shrink(Expand(Full(kids, NewFlags(env))).kids)
                          && Coherent(r.node, root, env.small) && (r.node.Short? || r.node.Full?)
    ensures (forall i :: 0 <= i < 17 ==> Avail(kids[i], false, env)) ==>
              Shrink(kids, env).Edited? && Avail(Shrink(kids, env).node, root, env)
  {
    var ts := Expand(Full(kids, NewFlags(env))).kids;
    OnlyEntryExpands(kids, ts, env.small);
    var pos := OnlyEntry(kids);
    if pos >= 0 { ReduceSound(pos, kids[pos], root, env); }
  }

  /** What `delete` promises of its result: the tree without the key, with every cached hash still right. */
  ghost predicate Deleted(r: EditResult, t: Tree, key: Key, root: bool, small: Blob -> bool)
    requires WF(t, key == []) && (key == [] || Terminated(key))
  {
    r.Edited? ==>
      && Expand(r.node) == T.Delete(t, key)
      && Coherent(r.node, root, small)
      && (!r.dirty <==> Lookup(t, key).None?)
      && (r.dirty && !r.node.Nil? ==> r.node.Short? || r.node.Full?)
  }

  lemma {:induction false} DeleteSound(n: Node, key: Key, root: bool, env: Env)
    requires Callable(n, key, env) && Coherent(n, root, env.small)
    ensures Deleted(Delete(n, key, env), Expand(n), key, root, env.small)
    ensures Avail(n, root, env) ==> Delete(n, key, env).Edited? && Avail(Delete(n, key, env).node, root, env)
    decreases Expand(n), n.HashNode?
  {
    match n
    case Nil =>
    case Value(_) =>
    case Short(sk, val, flags) =>
      T.SplitPoint(key, sk);
      if PrefixLen(key, sk) == |sk| < |key| {
        KeyBelow(sk, key);
        DeleteSound(val, key[|sk|..], false, env);
        DeleteShort(n, key, root, env);
      }
    case Full(kids, flags) =>
      KeyBelowBranch(key);
      assert Expand(n).kids[key[0]] == Expand(kids[key[0]]);
      DeleteSound(kids[key[0]], key[1..], false, env);
      DeleteFull(n, key, root, env);
    case HashNode(h) =>
      if h in env.db {
        ResolveSound(h, root, env);
        DeleteSound(Resolve(h, env).value, key, root, env);
        UnchangedDelete(n, key, env);
      }
  }

  lemma {:induction false} DeleteShort(n: Node, key: Key, root: bool, env: Env)
    requires n.Short? && Callable(n, key, env) && Coherent(n, root, env.small) && PrefixLen(key, n.key) == |n.key| < |key|
    requires Callable(n.val, key[|n.key|..], env)
    requires Deleted(Delete(n.val, key[|n.key|..], env), Expand(n.val), key[|n.key|..], false, env.small)
    requires var r := Delete(n.val, key[|n.key|..], env);
             Avail(n.val, false, env) ==> r.Edited? && Avail(r.node, false, env)
    ensures Deleted(Delete(n, key, env), Expand(n), key, root, env.small)
    ensures Avail(n, root, env) ==> Delete(n, key, env).Edited? && Avail(Delete(n, key, env).node, root, env)
  {
    T.SplitPoint(key, n.key);
    UnchangedDelete(n, key, env);
  }

  lemma {:induction false} DeleteFull(n: Node, key: Key, root: bool, env: Env)
    requires n.Full? && Callable(n, key, env) && Coherent(n, root, env.small)
    requires Terminated(key) && 0 <= key[0] < 17 && Callable(n.kids[key[0]], key[1..], env)
    requires Deleted(Delete(n.kids[key[0]], key[1..], env), Expand(n.kids[key[0]]), key[1..], false, env.small)
    requires var r := Delete(n.kids[key[0]], key[1..], env);
             Avail(n.kids[key[0]], false, env) ==> r.Edited? && Avail(r.node, false, env)
    ensures Deleted(Delete(n, key, env), Expand(n), key, root, env.small)
    ensures Avail(n, root, env) ==> Delete(n, key, env).Edited? && Avail(Delete(n, key, env).node, root, env)
  {
    var i := key[0];
    var ts := Expand(n).kids;
    assert ts[i] == Expand(n.kids[i]);
    UnchangedDelete(n, key, env);
    var r := Delete(n.kids[i], key[1..], env);
    if r.Edited? && r.dirty {
      T.DeleteWF(ts[i], key[1..]);
      var kids' := n.kids[i := r.node];
      forall j | 0 <= j < 17
        ensures WF(Expand(kids'[j]), j == TERMINATOR) && Coherent(kids'[j], false, env.small)
      {
        assert j != i ==> ts[j] == Expand(kids'[j]);
      }
      ShrinkSound(kids', root, env);
      ExpandUpdate(n.kids, n.flags, i, r.node, NewFlags(env));
      assert T.Delete(Expand(n), key) == T.Shrink(ts[i := T.Delete(ts[i], key[1..])]);
    }
  }

  lemma {:induction false} UnchangedDelete(n: Node, key: Key, env: Env)
    requires Callable(n, key, env)
    ensures Lookup(Expand(n), key).None? ==> T.Delete(Expand(n), key) == Expand(n)
  {
    if Lookup(Expand(n), key).None? { T.DeleteAbsent(Expand(n), key); }
  }
}
