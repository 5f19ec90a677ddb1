/**
 The abstract content of a Merkle Patricia trie: the tree that is left once every unloaded
 subtrie is expanded and every cache flag is dropped.  This module states what it means for
 such a tree to be well formed and proves that a well-formed tree is determined by the
 key/value map it holds.
 */
module Tree {
  import opened Encoding

  datatype Option<+T> = None | Some(value: T)

  datatype Tree =
    | Empty
    | Val(v: Bytes)
    | Ext(key: Key, sub: Tree)
    | Branch(kids: seq<Tree>)

  /** Two different entries of a full node are in use. */
  predicate TwoKids(kids: seq<Tree>) {
    exists i, j :: 0 <= i < j < |kids| && !kids[i].Empty? && !kids[j].Empty?
  }

  /** A short node's key: not empty, and the terminator only at its end. */
  predicate ShortKey(k: Key) {
    |k| > 0 && HexKey(k)
  }

  /**
   Well-formedness.  `end` is true at the positions reached after the terminator, which hold
   values; every other position holds a short node, a full node or nothing.
   */
  ghost predicate WF(t: Tree, end: bool) {
    match t
    case Empty => true
    case Val(v) => end && v != []
    case Ext(key, sub) =>
      && !end && ShortKey(key)
      && (if HasTerm(key) then sub.Val? else sub.Branch?)
      && WF(sub, HasTerm(key))
    case Branch(kids) =>
      && !end && |kids| == 17 && TwoKids(kids)
      && forall i :: 0 <= i < 17 ==> WF(kids[i], i == TERMINATOR)
  }

  /** The keys that can be looked up at a position. */
  predicate KeyAt(k: Key, end: bool) {
    if end then k == [] else Terminated(k)
  }

  function Lookup(t: Tree, k: Key): Option<Bytes> {
    match t
    case Empty => None
    case Val(v) => if k == [] then Some(v) else None
    case Ext(key, sub) => if key <= k then Lookup(sub, k[|key|..]) else None
    case Branch(kids) => if |k| > 0 && 0 <= k[0] < |kids| then Lookup(kids[k[0]], k[1..]) else None
  }

  /** The two trees answer every lookup alike. */
  ghost predicate SameMap(a: Tree, b: Tree, end: bool) {
    forall k :: KeyAt(k, end) ==> Lookup(a, k) == Lookup(b, k)
  }

  lemma {:induction false} TerminatedTail(k: Key, n: nat)
    requires Terminated(k) && n < |k|
    ensures Terminated(k[n..]) && Nibbles(k[..n])
  {
    assert k[n..][..|k| - n - 1] == k[..|k| - 1][n..];
  }

  /** What is left of a looked-up key after a short node or a full node is a key of the position below. */
  lemma {:induction false} KeyBelow(key: Key, k: Key)
    requires ShortKey(key) && Terminated(k) && key <= k
    ensures KeyAt(k[|key|..], HasTerm(key))
  {
    assert key[|key| - 1] == k[|key| - 1];
    if |key| < |k| {
      TerminatedTail(k, |key|);
    }
  }

  lemma {:induction false} KeyBelowBranch(k: Key)
    requires Terminated(k)
    ensures 0 <= k[0] < 17 && KeyAt(k[1..], k[0] == TERMINATOR)
  {
    if |k| > 1 {
      assert k[0] == k[..|k| - 1][0];
      TerminatedTail(k, 1);
    }
  }

  lemma {:induction false} Prepend(key: Key, k: Key)
    requires ShortKey(key) && KeyAt(k, HasTerm(key))
    ensures Terminated(key + k) && key <= key + k && (key + k)[|key|..] == k
  {
    if !HasTerm(key) {
      assert Nibbles(key);
      assert (key + k)[..|key + k| - 1] == key + k[..|k| - 1];
    } else {
      assert key + k == key;
    }
  }

  lemma {:induction false} PrependNibble(i: int, k: Key)
    requires 0 <= i < 17 && KeyAt(k, i == TERMINATOR)
    ensures Terminated([i] + k) && ([i] + k)[0] == i && ([i] + k)[1..] == k
  {
    assert ShortKey([i]);
    Prepend([i], k);
  }

  /** Some key of the position is present in every non-empty well-formed tree. */
  lemma {:induction false} Witness(t: Tree, end: bool) returns (k: Key)
    requires WF(t, end) && !t.Empty?
    ensures KeyAt(k, end) && Lookup(t, k).Some?
    decreases t, 1
  {
    match t
    case Val(v) => k := [];
    case Ext(key, sub) =>
      var below := Witness(sub, HasTerm(key));
      Prepend(key, below);
      k := key + below;
    case Branch(kids) =>
      var i, j :| 0 <= i < j < |kids| && !kids[i].Empty? && !kids[j].Empty?;
      k := WitnessUnder(t, i);
  }

  lemma {:induction false} WitnessUnder(t: Tree, i: int) returns (k: Key)
    requires t.Branch? && WF(t, false) && 0 <= i < 17 && !t.kids[i].Empty?
    ensures Terminated(k) && k[0] == i && Lookup(t, k).Some?
    decreases t, 0
  {
    var below := Witness(t.kids[i], i == TERMINATOR);
    PrependNibble(i, below);
    k := [i] + below;
  }

  /** A full node holds two keys that part at their first nibble. */
  lemma {:induction false} TwoWitnesses(t: Tree) returns (k: Key, k': Key)
    requires t.Branch? && WF(t, false)
    ensures Terminated(k) && Terminated(k') && k[0] != k'[0]
    ensures Lookup(t, k).Some? && Lookup(t, k').Some?
  {
    var i, j :| 0 <= i < j < |t.kids| && !t.kids[i].Empty? && !t.kids[j].Empty?;
    k := WitnessUnder(t, i);
    k' := WitnessUnder(t, j);
  }

  lemma {:induction false} PrefixOfBoth(p: Key, w: Key, w': Key, n: nat)
    requires p <= w && p <= w' && n < |w| && n < |w'| && w[n] != w'[n]
    ensures |p| <= n
  {
  }

  /** The key of a short node that holds a full node is the longest common prefix of the keys below it. */
  lemma {:induction false} ExtKeyMaximal(a: Tree, b: Tree)
    requires a.Ext? && b.Ext? && WF(a, false) && WF(b, false) && SameMap(a, b, false)
    requires a.sub.Branch?
    ensures b.key <= a.key
  {
    var k, k' := TwoWitnesses(a.sub);
    Prepend(a.key, k);
    Prepend(a.key, k');
    var w, w' := a.key + k, a.key + k';
    assert Lookup(b, w).Some? && Lookup(b, w').Some?;
    assert b.key <= w && b.key <= w';
    PrefixOfBoth(b.key, w, w', |a.key|);
  }

  lemma {:induction false} SameMapBelowExt(a: Tree, b: Tree)
    requires a.Ext? && b.Ext? && a.key == b.key && ShortKey(a.key)
    requires SameMap(a, b, false)
    ensures SameMap(a.sub, b.sub, HasTerm(a.key))
  {
    forall k | KeyAt(k, HasTerm(a.key))
      ensures Lookup(a.sub, k) == Lookup(b.sub, k)
    {
      Prepend(a.key, k);
      assert Lookup(a, a.key + k) == Lookup(b, a.key + k);
    }
  }

  lemma {:induction false} SameMapBelowBranch(a: Tree, b: Tree, i: int)
    requires a.Branch? && b.Branch? && |a.kids| == |b.kids| == 17 && 0 <= i < 17
    requires SameMap(a, b, false)
    ensures SameMap(a.kids[i], b.kids[i], i == TERMINATOR)
  {
    forall k | KeyAt(k, i == TERMINATOR)
      ensures Lookup(a.kids[i], k) == Lookup(b.kids[i], k)
    {
      PrependNibble(i, k);
      assert Lookup(a, [i] + k) == Lookup(b, [i] + k);
    }
  }

  lemma {:induction false} ExtIsNotBranch(a: Tree, b: Tree)
    requires a.Ext? && b.Branch? && WF(a, false) && WF(b, false)
    ensures !SameMap(a, b, false)
  {
    var k, k' := TwoWitnesses(b);
    assert Lookup(a, k).Some? ==> a.key[0] == k[0];
    assert Lookup(a, k').Some? ==> a.key[0] == k'[0];
  }

  lemma {:induction false} SubKindsEqual(a: Tree, b: Tree)
    requires a.Ext? && b.Ext? && WF(a, false) && WF(b, false) && SameMap(a, b, false)
    requires a.sub.Branch?
    ensures b.sub.Branch?
  {
    ExtKeyMaximal(a, b);
    assert b.key[|b.key| - 1] == a.key[|b.key| - 1];
  }

  lemma {:induction false} ExtKeysEqual(a: Tree, b: Tree)
    requires a.Ext? && b.Ext? && WF(a, false) && WF(b, false) && SameMap(a, b, false)
    ensures a.key == b.key
  {
    if a.sub.Branch? {
      SubKindsEqual(a, b);
      ExtKeyMaximal(a, b);
      ExtKeyMaximal(b, a);
    } else {
      Prepend(a.key, []);
      assert a.key + [] == a.key;
      assert Lookup(a, a.key).Some?;
      assert Lookup(b, a.key).Some?;
      assert b.key <= a.key;
      if b.sub.Branch? {
        SubKindsEqual(b, a);
      } else {
        KeyBelow(b.key, a.key);
      }
    }
  }

  /**
   Canonical shape: two well-formed tries that hold the same map are the same tree, so the
   shape never depends on the order or history of the updates that led to it.
   */
  lemma {:induction false} Canonical(a: Tree, b: Tree, end: bool)
    requires WF(a, end) && WF(b, end) && SameMap(a, b, end)
    ensures a == b
  {
    if a.Empty? || b.Empty? {
      if !a.Empty? {
        var k := Witness(a, end);
      } else if !b.Empty? {
        var k := Witness(b, end);
      }
    } else if end {
      assert Lookup(a, []) == Lookup(b, []);
    } else if a.Ext? && b.Ext? {
      ExtKeysEqual(a, b);
      SameMapBelowExt(a, b);
      Canonical(a.sub, b.sub, HasTerm(a.key));
    } else if a.Branch? && b.Branch? {
      forall i | 0 <= i < 17
        ensures a.kids[i] == b.kids[i]
      {
        SameMapBelowBranch(a, b, i);
        Canonical(a.kids[i], b.kids[i], i == TERMINATOR);
      }
      assert a.kids == b.kids;
    } else if a.Ext? {
      ExtIsNotBranch(a, b);
    } else {
      ExtIsNotBranch(b, a);
    }
  }
}
