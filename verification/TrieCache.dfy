/**
 How long a trie stays in memory (trie/trie.go, trie/hasher.go, trie/node.go): commits count cache
 generations in 16 bits, loading and changing a trie marks its root with the current one, and a
 commit unloads a clean trie that was not marked for `cachelimit` generations.
 */
module TrieCache {
  import opened Encoding
  import opened Tree
  import opened Nodes
  import opened Trie
  import N = NodeOps
  import H = Hasher

  /** The root is in memory. */
  predicate Loaded(s: State) {
    s.root.Short? || s.root.Full?
  }

  /** The root is in memory, unchanged since it was written, and its hash is known. */
  predicate Rested(s: State) {
    Loaded(s) && !s.root.flags.dirty && s.root.flags.hash.Some?
  }

  /** How many generations ago the root was marked, on 16-bit counters that wrap around. */
  function Age(s: State): nat
    requires Loaded(s)
  {
    (s.gen - s.root.flags.gen) % 0x1_0000
  }

  /** The hash of the root, if it is known without any work. */
  function KnownHash(s: State): Option<Hash> {
    if s.root.HashNode? then Some(s.root.h) else if Loaded(s) then s.root.flags.hash else None
  }

  /** After hashing, the root knows the hash that was computed. */
  lemma {:induction false} HashIsKept(s: State, small: Blob -> bool)
    requires Inv(s, small) && !s.root.Nil?
    ensures KnownHash(HashStep(s, small)).Some? && HashRoot(s, None, small).ref == HashBlob(KnownHash(HashStep(s, small)).value)
  {
  }

  /** A node that the hasher writes and does not unload is clean afterwards, with its mark. */
  lemma {:induction false} WrittenClean(n: Node, c: H.Conf, env: Env)
    requires (n.Short? || n.Full?) && WF(Expand(n), false) && env.small == c.small && StoreOk(env) && Coherent(n, true, c.small)
    ensures var r := H.Hash(n, Some(env.db), true, c).node; r.Short? || r.Full? ==> !r.flags.dirty && r.flags.hash.Some? && r.flags.gen == n.flags.gen
  {
    if n.Short? {
      H.ShortKid(n, true, c.small);
      if !n.val.Value? { H.HashSound(n.val, Some(env.db), false, c, false, env); }
    } else {
      assert forall i :: 0 <= i < 17 ==> Expand(n).kids[i] == Expand(n.kids[i]);
      H.HashKidsSound(n.kids, 16, Some(env.db), c, false, env);
    }
  }

  /**
   What a commit leaves of the root: it is unloaded exactly if it was rested for `cachelimit`
   generations, and else in memory, rested and with its mark.
   */
  lemma {:induction false} CommitLeaves(s: State, small: Blob -> bool)
    requires Inv(s, small) && !s.root.Nil?
    ensures var s' := CommitStep(s, small);
            && KnownHash(s').Some? && HashRoot(s, Some(s.db), small).ref == HashBlob(KnownHash(s').value)
            && (s'.root.HashNode? <==> s.root.HashNode? || (Rested(s) && Age(s) >= s.limit))
            && (!s'.root.HashNode? ==> Loaded(s) && Rested(s') && s'.root.flags.gen == s.root.flags.gen)
            && (Rested(s) && !s'.root.HashNode? ==> s'.root == s.root)
            && s'.gen == (s.gen + 1) % 0x1_0000 && s'.limit == s.limit
  {
    if Loaded(s) { WrittenClean(s.root, H.Conf(s.gen, s.limit, small), EnvOf(s, small)); }
  }

  function Commits(k: nat): seq<Op> {
    seq(k, _ => CommitOp)
  }

  lemma {:induction false} NextAge(s: State, s': State)
    requires Loaded(s) && Age(s) + 1 < 0x1_0000 && s'.root == s.root && s'.gen == (s.gen + 1) % 0x1_0000
    ensures Age(s') == Age(s) + 1
  {
  }

  lemma {:induction false} FirstAge(s: State, s': State)
    requires Loaded(s) && s.root.flags.gen == s.gen < 0x1_0000 && Loaded(s') && s'.root.flags.gen == s.gen && s'.gen == (s.gen + 1) % 0x1_0000
    ensures Age(s') == 1
  {
  }

  /** An unloaded trie stays unloaded. */
  lemma {:induction false} StaysUnloaded(s: State, k: nat, small: Blob -> bool)
    requires Inv(s, small) && s.root.HashNode?
    ensures Run(s, Commits(k), small).root.HashNode?
    decreases k
  {
    if k > 0 {
      StepInv(s, CommitOp, small);
      CommitLeaves(s, small);
      assert Commits(k)[1..] == Commits(k - 1);
      StaysUnloaded(CommitStep(s, small), k - 1, small);
    }
  }

  /** A rested trie that is left alone stays in memory as long as its age does not exceed the limit, and no longer. */
  lemma {:induction false} LeftAlone(s: State, k: nat, small: Blob -> bool)
    requires Inv(s, small) && Rested(s) && s.limit < 0x1_0000
    ensures Run(s, Commits(k), small).root.HashNode? <==> k > 0 && Age(s) + k > s.limit
    decreases k
  {
    if k > 0 {
      var s' := CommitStep(s, small);
      StepInv(s, CommitOp, small);
      CommitLeaves(s, small);
      assert Commits(k)[1..] == Commits(k - 1) && Commits(k)[0] == CommitOp;
      if s'.root.HashNode? {
        StaysUnloaded(s', k - 1, small);
      } else {
        NextAge(s, s');
        LeftAlone(s', k - 1, small);
      }
    }
  }

  // ---------------------------------------------------------------------------
  // Marks
  // ---------------------------------------------------------------------------

  /** The node is in memory and marked with the generation. */
  predicate Marked(n: Node, gen: nat) {
    (n.Short? || n.Full?) && n.flags.gen == gen
  }

  /** A lookup that loads something marks the root. */
  lemma {:induction false} GetMarks(n: Node, key: Key, env: Env)
    requires N.Callable(n, key, env)
    ensures var r := N.TryGet(n, key, env); r.Got? ==> if r.resolved then Marked(r.node, env.gen) else r.node == n
    decreases Expand(n), n.HashNode?
  {
    match n
    case HashNode(h) =>
      if h in env.db {
        ResolveSound(h, true, env);
        GetMarks(Resolve(h, env).value, key, env);
      }
    case _ =>
  }

  /** So does an insertion that changes or loads something; after a change it is dirty. */
  lemma {:induction false} InsertMarks(n: Node, key: Key, v: Bytes, root: bool, env: Env)
    requires N.Callable(n, key, env) && Coherent(n, root, env.small) && key != []
    ensures var r := N.Insert(n, key, v, env);
            r.Edited? ==> (if r.dirty then Marked(r.node, env.gen) && r.node.flags.dirty else r.node == n || Marked(r.node, env.gen))
    decreases Expand(n), n.HashNode?
  {
    match n
    case HashNode(h) =>
      if h in env.db {
        ResolveSound(h, root, env);
        InsertMarks(Resolve(h, env).value, key, v, root, env);
      }
    case _ =>
  }

  lemma {:induction false} DeleteMarks(n: Node, key: Key, root: bool, env: Env)
    requires N.Callable(n, key, env) && Coherent(n, root, env.small) && key != []
    ensures var r := N.Delete(n, key, env);
            r.Edited? ==> (if r.dirty then r.node.Nil? || (Marked(r.node, env.gen) && r.node.flags.dirty) else r.node == n || Marked(r.node, env.gen))
    decreases Expand(n), n.HashNode?
  {
    match n
    case HashNode(h) =>
      if h in env.db {
        ResolveSound(h, root, env);
        DeleteMarks(Resolve(h, env).value, key, root, env);
      }
    case _ =>
  }

  /** Whatever operation leaves another root than before and is no commit or hashing marks it. */
  lemma {:induction false} StepMarks(s: State, op: Op, small: Blob -> bool)
    requires Inv(s, small) && (op.GetOp? || op.UpdateOp? || op.DeleteOp?)
    ensures var s' := Step(s, op, small); s'.root == s.root || s'.root.Nil? || Marked(s'.root, s.gen)
  {
    KeyOk(s, op.key, small);
    var k, env := KeybytesToHex(op.key), EnvOf(s, small);
    match op
    case GetOp(_) => GetMarks(s.root, k, env);
    case UpdateOp(_, v) => InsertMarks(s.root, k, v, true, env); DeleteMarks(s.root, k, true, env);
    case DeleteOp(_) => DeleteMarks(s.root, k, true, env);
  }

  /**
   A trie that was marked, written by a commit and then left alone stays in memory for `cachelimit`
   commits in all, but at least for that one, and is unloaded by the next.
   */
  lemma {:induction false} KeptForLimit(s: State, k: nat, small: Blob -> bool)
    requires Inv(s, small) && Marked(s.root, s.gen) && s.root.flags.dirty && s.gen < 0x1_0000 && s.limit < 0x1_0000
    ensures Run(s, Commits(k + 1), small).root.HashNode? <==> k > 0 && k + 1 > s.limit
  {
    var s' := CommitStep(s, small);
    StepInv(s, CommitOp, small);
    CommitLeaves(s, small);
    assert Commits(k + 1)[1..] == Commits(k) && Commits(k + 1)[0] == CommitOp;
    FirstAge(s, s');
    LeftAlone(s', k, small);
  }
}
