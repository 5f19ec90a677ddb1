/**
 Insertion and deletion on the abstract tree: the path-compression logic of trie/trie.go
 without unloaded nodes, cache flags and errors.  Both keep well-formedness and change the
 map at one key only.
 */
module TreeOps {
  import opened Encoding
  import opened Tree

  function NoKids(): (kids: seq<Tree>)
    ensures |kids| == 17 && forall i :: 0 <= i < 17 ==> kids[i].Empty?
  {
    seq(17, _ => Empty)
  }

  /** `insert` into nothing: a value or subtrie goes in place when the key is used up, else under a short node. */
  function Attach(key: Key, t: Tree): Tree {
    if key == [] then t else Ext(key, t)
  }

  /** The full node that parts two short-node keys at index `m`. */
  function Split(key: Key, t: Tree, key': Key, t': Tree, m: nat): Tree
    requires m < |key| && m < |key'| && 0 <= key[m] < 17 && 0 <= key'[m] < 17
  {
    Branch(NoKids()[key[m] := Attach(key[m + 1..], t)][key'[m] := Attach(key'[m + 1..], t')])
  }

  /** A looked-up key and a short-node key either part at an index of both, or the short-node key is a prefix. */
  lemma {:induction false} SplitPoint(key: Key, sk: Key)
    requires Terminated(key) && ShortKey(sk)
    ensures PrefixLen(key, sk) < |sk| ==> PrefixLen(key, sk) < |key|
    ensures PrefixLen(key, sk) < |sk| ==> 0 <= key[PrefixLen(key, sk)] < 17 && 0 <= sk[PrefixLen(key, sk)] < 17
    ensures PrefixLen(key, sk) == |sk| <==> sk <= key
  {
    var m := PrefixLen(key, sk);
    if m < |sk| {
      InnerNibble(sk, m);
      if m == |key| {
        assert key[m - 1] == TERMINATOR;
        assert sk[m - 1] == TERMINATOR;
        InnerNibble(sk, m - 1);
        assert false;
      }
      InnerNibble(key, m);
    }
    if sk <= key {
      PrefixLenUnique(key, sk, |sk|);
    }
    if m == |sk| {
      assert sk == sk[..m] == key[..m];
    }
  }

  lemma {:induction false} InnerNibble(k: Key, m: nat)
    requires HexKey(k) && m < |k|
    ensures 0 <= k[m] < 17 && (k[m] == TERMINATOR ==> m == |k| - 1)
  {
    if Terminated(k) && m < |k| - 1 {
      assert k[m] == k[..|k| - 1][m];
    }
  }

  function Insert(t: Tree, key: Key, v: Bytes): Tree
    requires WF(t, key == []) && (key == [] || Terminated(key))
  {
    match t
    case Empty => Attach(key, Val(v))
    case Val(_) => Val(v)
    case Ext(sk, sub) =>
      SplitPoint(key, sk);
      var m := PrefixLen(key, sk);
      if m == |sk| then
        KeyBelow(sk, key);
        Ext(sk, Insert(sub, key[m..], v))
      else
        var branch := Split(sk, sub, key, Val(v), m);
        if m == 0 then branch else Ext(key[..m], branch)
    case Branch(kids) =>
      KeyBelowBranch(key);
      Branch(kids[key[0] := Insert(kids[key[0]], key[1..], v)])
  }

  /** The index of the only entry in use, or -1 for none and -2 for several. */
  function OnlyKid(kids: seq<Tree>): (pos: int)
    ensures -2 <= pos < |kids|
  {
    if |kids| == 0 then -1
    else
      var n := |kids| - 1;
      var rest := OnlyKid(kids[..n]);
      if kids[n].Empty? then rest else if rest == -1 then n else -2
  }

  /** The short node that replaces a full node whose only entry is `kid` at `pos`. */
  function Reduce(pos: int, kid: Tree): Tree {
    if pos != TERMINATOR && kid.Ext? then Ext([pos] + kid.key, kid.sub) else Ext([pos], kid)
  }

  /** A full node after one entry was deleted: reduced to a short node if only one entry is left. */
  function Shrink(kids: seq<Tree>): Tree {
    var pos := OnlyKid(kids);
    if pos >= 0 then Reduce(pos, kids[pos]) else Branch(kids)
  }

  function Delete(t: Tree, key: Key): Tree
    requires WF(t, key == []) && (key == [] || Terminated(key))
  {
    match t
    case Empty => Empty
    case Val(_) => Empty
    case Ext(sk, sub) =>
      SplitPoint(key, sk);
      var m := PrefixLen(key, sk);
      if m < |sk| then t
      else if m == |key| then Empty
      else
        KeyBelow(sk, key);
        var child := Delete(sub, key[m..]);
        if child.Ext? then Ext(sk + child.key, child.sub) else Ext(sk, child)
    case Branch(kids) =>
      KeyBelowBranch(key);
      Shrink(kids[key[0] := Delete(kids[key[0]], key[1..])])
  }

  lemma {:induction false} OnlyKidRange(kids: seq<Tree>)
    ensures OnlyKid(kids) >= 0 ==> forall i :: 0 <= i < |kids| ==> (!kids[i].Empty? <==> i == OnlyKid(kids))
    ensures OnlyKid(kids) == -1 <==> forall i :: 0 <= i < |kids| ==> kids[i].Empty?
    ensures OnlyKid(kids) == -2 <==> TwoKids(kids)
  {
    if |kids| > 0 {
      var n := |kids| - 1;
      var front := kids[..n];
      OnlyKidRange(front);
      assert forall i :: 0 <= i < n ==> kids[i] == front[i];
      if TwoKids(front) {
        var i, j :| 0 <= i < j < |front| && !front[i].Empty? && !front[j].Empty?;
        assert !kids[i].Empty? && !kids[j].Empty?;
      }
      if OnlyKid(front) >= 0 && !kids[n].Empty? {
        assert !kids[OnlyKid(front)].Empty?;
      }
      if TwoKids(kids) {
        var i, j :| 0 <= i < j < |kids| && !kids[i].Empty? && !kids[j].Empty?;
        assert !front[i].Empty?;
        if j < n { assert !front[j].Empty?; }
      }
    }
  }

  // ---------------------------------------------------------------------------
  // Lookup through the constructors
  // ---------------------------------------------------------------------------

  lemma {:induction false} AttachWF(key: Key, t: Tree)
    requires key == [] ==> WF(t, true) || WF(t, false)
    requires key != [] ==> ShortKey(key) && (if HasTerm(key) then t.Val? else t.Branch?) && WF(t, HasTerm(key))
    ensures key != [] ==> WF(Attach(key, t), false)
  {
  }

  lemma {:induction false} AttachLookup(key: Key, t: Tree, k: Key)
    ensures Lookup(Attach(key, t), k) == if key <= k then Lookup(t, k[|key|..]) else None
  {
    if key == [] { assert k[0..] == k; }
  }

  lemma {:induction false} PrefixTail(p: Key, k: Key, m: nat)
    requires m < |p|
    ensures p <= k <==> m < |k| && p[..m] <= k && p[m] == k[m] && p[m + 1..] <= k[m + 1..]
  {
    if m < |k| && p[..m] <= k && p[m] == k[m] && p[m + 1..] <= k[m + 1..] {
      assert p == p[..m] + [p[m]] + p[m + 1..];
      assert k == k[..m] + [k[m]] + k[m + 1..];
      assert p[..m] == k[..m];
    }
    if p <= k {
      assert p[m + 1..] == k[m + 1..|p|];
    }
  }

  /** Below a short node, the subtrie sits right after the first `m + 1` nibbles of the key. */
  lemma {:induction false} SplitWF(key: Key, t: Tree, key': Key, t': Tree, m: nat)
    requires ShortKey(key) && ShortKey(key') && m < |key| && m < |key'| && key[m] != key'[m]
    requires 0 <= key[m] < 17 && 0 <= key'[m] < 17
    requires (if HasTerm(key) then t.Val? else t.Branch?) && WF(t, HasTerm(key))
    requires (if HasTerm(key') then t'.Val? else t'.Branch?) && WF(t', HasTerm(key'))
    ensures WF(Split(key, t, key', t', m), false)
  {
    RestWF(key, t, m);
    RestWF(key', t', m);
    var kids := Split(key, t, key', t', m).kids;
    var lo, hi := if key[m] < key'[m] then key[m] else key'[m], if key[m] < key'[m] then key'[m] else key[m];
    assert !kids[lo].Empty? && !kids[hi].Empty?;
    assert TwoKids(kids);
  }

  lemma {:induction false} RestWF(key: Key, t: Tree, m: nat)
    requires ShortKey(key) && m < |key| && 0 <= key[m] < 17
    requires (if HasTerm(key) then t.Val? else t.Branch?) && WF(t, HasTerm(key))
    ensures WF(Attach(key[m + 1..], t), key[m] == TERMINATOR)
    ensures !Attach(key[m + 1..], t).Empty?
  {
    InnerNibble(key, m);
    if m + 1 < |key| {
      if Terminated(key) { TerminatedTail(key, m + 1); }
      assert HasTerm(key[m + 1..]) == HasTerm(key);
    }
  }

  lemma {:induction false} SplitLookup(key: Key, t: Tree, key': Key, t': Tree, m: nat, k: Key)
    requires m < |key| && m < |key'| && key[m] != key'[m] && key[..m] == key'[..m]
    requires 0 <= key[m] < 17 && 0 <= key'[m] < 17 && Terminated(k)
    ensures Lookup(Attach(key[..m], Split(key, t, key', t', m)), k) ==
            if key <= k then Lookup(t, k[|key|..]) else if key' <= k then Lookup(t', k[|key'|..]) else None
  {
    var branch := Split(key, t, key', t', m);
    AttachLookup(key[..m], branch, k);
    PrefixTail(key, k, m);
    PrefixTail(key', k, m);
    if key[..m] <= k && m < |k| {
      InnerNibble(k, m);
      assert k[m..][0] == k[m] && k[m..][1..] == k[m + 1..];
      SplitKid(key, t, k, m);
      SplitKid(key', t', k, m);
    }
  }

  /** What hangs below a split, read with the rest of the key. */
  lemma {:induction false} SplitKid(key: Key, t: Tree, k: Key, m: nat)
    requires m < |key| && m < |k| && key[..m] <= k
    ensures Lookup(Attach(key[m + 1..], t), k[m + 1..]) == if key[m + 1..] <= k[m + 1..] then Lookup(t, k[m + 1..][|key| - m - 1..]) else None
    ensures key <= k ==> k[m + 1..][|key| - m - 1..] == k[|key|..]
  {
    AttachLookup(key[m + 1..], t, k[m + 1..]);
  }

  lemma {:induction false} BranchLookup(kids: seq<Tree>, i: int, t: Tree, k: Key)
    requires |kids| == 17 && 0 <= i < 17 && Terminated(k)
    ensures 0 <= k[0] < 17
    ensures Lookup(Branch(kids[i := t]), k) == Lookup(if k[0] == i then t else kids[k[0]], k[1..])
  {
    KeyBelowBranch(k);
  }

  lemma {:induction false} NoOtherAtEnd(k: Key, k': Key)
    requires Terminated(k) && Terminated(k') && k <= k'
    ensures k == k'
  {
    KeyBelow(k, k');
  }

  /** An update below a full node, read through the full node: `o` is what the updated key now holds. */
  lemma {:induction false} BranchStep(kids: seq<Tree>, t: Tree, key: Key, o: Option<Bytes>, k: Key)
    requires |kids| == 17 && Terminated(key) && Terminated(k) && 0 <= key[0] < 17
    requires k[0] == key[0] ==> Lookup(t, k[1..]) == if k[1..] == key[1..] then o else Lookup(kids[key[0]], k[1..])
    ensures Lookup(Branch(kids[key[0] := t]), k) == if k == key then o else Lookup(Branch(kids), k)
  {
    BranchLookup(kids, key[0], t, k);
    assert k == [k[0]] + k[1..] && key == [key[0]] + key[1..];
  }

  /** The same through a short node whose key is a prefix of the updated key. */
  lemma {:induction false} ExtStep(sk: Key, sub: Tree, sub': Tree, key: Key, o: Option<Bytes>, k: Key)
    requires sk <= key
    requires sk <= k ==> Lookup(sub', k[|sk|..]) == if k[|sk|..] == key[|sk|..] then o else Lookup(sub, k[|sk|..])
    ensures Lookup(Ext(sk, sub'), k) == if k == key then o else Lookup(Ext(sk, sub), k)
  {
    assert key == sk + key[|sk|..];
    if sk <= k { assert k == sk + k[|sk|..]; }
  }

  // ---------------------------------------------------------------------------
  // Insertion
  // ---------------------------------------------------------------------------

  lemma {:induction false} InsertWF(t: Tree, key: Key, v: Bytes)
    requires WF(t, key == []) && (key == [] || Terminated(key)) && v != []
    ensures WF(Insert(t, key, v), key == []) && !Insert(t, key, v).Empty?
    ensures t.Branch? ==> Insert(t, key, v).Branch?
    ensures t.Val? ==> Insert(t, key, v).Val?
  {
    match t
    case Empty =>
    case Val(_) =>
    case Ext(sk, sub) =>
      SplitPoint(key, sk);
      var m := PrefixLen(key, sk);
      if m == |sk| {
        KeyBelow(sk, key);
        InsertWF(sub, key[m..], v);
      } else {
        SplitWF(sk, sub, key, Val(v), m);
        if m > 0 { TerminatedTail(key, m); }
      }
    case Branch(kids) =>
      KeyBelowBranch(key);
      var i := key[0];
      InsertWF(kids[i], key[1..], v);
      var kids' := kids[i := Insert(kids[i], key[1..], v)];
      var a, b :| 0 <= a < b < |kids| && !kids[a].Empty? && !kids[b].Empty?;
      assert !kids'[a].Empty? && !kids'[b].Empty?;
      assert TwoKids(kids');
  }

  /** Insertion sets one key and leaves every other key alone. */
  lemma {:induction false} InsertLookup(t: Tree, key: Key, v: Bytes, k: Key)
    requires WF(t, key == []) && (key == [] || Terminated(key)) && KeyAt(k, key == [])
    ensures Lookup(Insert(t, key, v), k) == if k == key then Some(v) else Lookup(t, k)
  {
    match t
    case Empty =>
      AttachLookup(key, Val(v), k);
      if key != [] && key <= k { NoOtherAtEnd(key, k); }
    case Val(_) =>
    case Ext(sk, sub) =>
      SplitPoint(key, sk);
      var m := PrefixLen(key, sk);
      if m == |sk| {
        KeyBelow(sk, key);
        if sk <= k {
          KeyBelow(sk, k);
          InsertLookup(sub, key[m..], v, k[m..]);
        }
        ExtStep(sk, sub, Insert(sub, key[m..], v), key, Some(v), k);
      } else {
        SplitStep(sk, sub, key, v, m, k);
      }
    case Branch(kids) =>
      KeyBelowBranch(key);
      KeyBelowBranch(k);
      if k[0] == key[0] {
        InsertLookup(kids[key[0]], key[1..], v, k[1..]);
      }
      BranchStep(kids, Insert(kids[key[0]], key[1..], v), key, Some(v), k);
  }

  lemma {:induction false} SplitStep(sk: Key, sub: Tree, key: Key, v: Bytes, m: nat, k: Key)
    requires Terminated(key) && Terminated(k) && m < |sk| && m < |key| && key[m] != sk[m] && key[..m] == sk[..m]
    requires 0 <= key[m] < 17 && 0 <= sk[m] < 17
    ensures Lookup(Attach(key[..m], Split(sk, sub, key, Val(v), m)), k) ==
            if k == key then Some(v) else Lookup(Ext(sk, sub), k)
  {
    SplitLookup(sk, sub, key, Val(v), m, k);
    if key <= k { NoOtherAtEnd(key, k); }
  }

  // ---------------------------------------------------------------------------
  // Deletion
  // ---------------------------------------------------------------------------

  lemma {:induction false} ConcatWF(p: Key, t: Tree)
    requires |p| > 0 && Nibbles(p) && t.Ext? && WF(t, false)
    ensures WF(Ext(p + t.key, t.sub), false)
  {
    var k := p + t.key;
    assert HasTerm(k) == HasTerm(t.key);
    if Terminated(t.key) {
      assert k[..|k| - 1] == p + t.key[..|t.key| - 1];
    }
  }

  lemma {:induction false} ConcatPrefix(p: Key, q: Key, k: Key)
    ensures p + q <= k <==> p <= k && q <= k[|p|..]
  {
    if p + q <= k {
      assert k[..|p + q|] == p + q;
      assert k[..|p|] == p && k[|p|..|p + q|] == q;
    }
  }

  lemma {:induction false} ConcatLookup(p: Key, t: Tree, k: Key)
    requires t.Ext?
    ensures Lookup(Ext(p + t.key, t.sub), k) == Lookup(Ext(p, t), k)
  {
    ConcatPrefix(p, t.key, k);
    if p + t.key <= k {
      assert k[|p + t.key|..] == k[|p|..][|t.key|..];
    }
  }

  lemma {:induction false} ReduceWF(kids: seq<Tree>, pos: int)
    requires |kids| == 17 && 0 <= pos < 17 && !kids[pos].Empty? && WF(kids[pos], pos == TERMINATOR)
    ensures WF(Reduce(pos, kids[pos]), false) && Reduce(pos, kids[pos]).Ext?
  {
    if pos != TERMINATOR && kids[pos].Ext? {
      ConcatWF([pos], kids[pos]);
    } else {
      assert ShortKey([pos]);
    }
  }

  lemma {:induction false} ReduceLookup(kids: seq<Tree>, pos: int, k: Key)
    requires |kids| == 17 && 0 <= pos < 17 && Terminated(k)
    requires forall i :: 0 <= i < 17 && i != pos ==> kids[i].Empty?
    ensures Lookup(Reduce(pos, kids[pos]), k) == Lookup(Branch(kids), k)
  {
    KeyBelowBranch(k);
    if pos != TERMINATOR && kids[pos].Ext? {
      ConcatLookup([pos], kids[pos], k);
    }
    assert [pos] <= k <==> k[0] == pos;
  }

  lemma {:induction false} DeleteWF(t: Tree, key: Key)
    requires WF(t, key == []) && (key == [] || Terminated(key))
    ensures WF(Delete(t, key), key == [])
    ensures t.Branch? ==> !Delete(t, key).Empty?
  {
    match t
    case Empty =>
    case Val(_) =>
    case Ext(sk, sub) =>
      SplitPoint(key, sk);
      var m := PrefixLen(key, sk);
      if m == |sk| && m < |key| {
        KeyBelow(sk, key);
        DeleteWF(sub, key[m..]);
        var child := Delete(sub, key[m..]);
        if child.Ext? { ConcatWF(sk, child); }
      }
    case Branch(kids) =>
      KeyBelowBranch(key);
      var i := key[0];
      DeleteWF(kids[i], key[1..]);
      var kids' := kids[i := Delete(kids[i], key[1..])];
      OnlyKidRange(kids');
      var pos := OnlyKid(kids');
      if pos >= 0 {
        ReduceWF(kids', pos);
      } else {
        var a, b :| 0 <= a < b < |kids| && !kids[a].Empty? && !kids[b].Empty?;
        assert !kids'[if a == i then b else a].Empty?;
      }
  }

  /** Deletion unsets one key and leaves every other key alone. */
  lemma {:induction false} DeleteLookup(t: Tree, key: Key, k: Key)
    requires WF(t, key == []) && (key == [] || Terminated(key)) && KeyAt(k, key == [])
    ensures Lookup(Delete(t, key), k) == if k == key then None else Lookup(t, k)
  {
    match t
    case Empty =>
    case Val(_) =>
    case Ext(sk, sub) =>
      SplitPoint(key, sk);
      var m := PrefixLen(key, sk);
      if m == |sk| {
        KeyBelow(sk, key);
        if m == |key| {
          assert sk == key;
          if sk <= k { NoOtherAtEnd(sk, k); }
        } else {
          var child := Delete(sub, key[m..]);
          if sk <= k {
            KeyBelow(sk, k);
            DeleteLookup(sub, key[m..], k[m..]);
          }
          ExtStep(sk, sub, child, key, None, k);
          if child.Ext? { ConcatLookup(sk, child, k); }
        }
      }
    case Branch(kids) =>
      KeyBelowBranch(key);
      KeyBelowBranch(k);
      if k[0] == key[0] {
        DeleteLookup(kids[key[0]], key[1..], k[1..]);
      }
      var kids' := kids[key[0] := Delete(kids[key[0]], key[1..])];
      BranchStep(kids, kids'[key[0]], key, None, k);
      OnlyKidRange(kids');
      if OnlyKid(kids') >= 0 { ReduceLookup(kids', OnlyKid(kids'), k); }
  }

  /** Deleting an absent key is the identity. */
  lemma {:induction false} DeleteAbsent(t: Tree, key: Key)
    requires WF(t, key == []) && (key == [] || Terminated(key)) && Lookup(t, key).None?
    ensures Delete(t, key) == t
  {
    DeleteWF(t, key);
    forall k | KeyAt(k, key == [])
      ensures Lookup(Delete(t, key), k) == Lookup(t, k)
    {
      DeleteLookup(t, key, k);
    }
    Canonical(Delete(t, key), t, key == []);
  }

  /** Writing the value that is already there is the identity. */
  lemma {:induction false} InsertSame(t: Tree, key: Key, v: Bytes)
    requires WF(t, key == []) && (key == [] || Terminated(key)) && Lookup(t, key) == Some(v) && v != []
    ensures Insert(t, key, v) == t
  {
    InsertWF(t, key, v);
    forall k | KeyAt(k, key == [])
      ensures Lookup(Insert(t, key, v), k) == Lookup(t, k)
    {
      InsertLookup(t, key, v, k);
    }
    Canonical(Insert(t, key, v), t, key == []);
  }
}
