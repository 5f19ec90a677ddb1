/**
 The pre-order listing of a tree: the reference that the explicit-stack iterator of
 trie/iterator.go is measured against.  Paths come in strictly increasing order, and the
 leaves of the listing are exactly the key/value pairs of the tree.
 */
module Listing {
  import opened Encoding
  import opened Tree

  /** A visited node: its path from the root and the subtree under it. */
  datatype Entry = Entry(path: Key, tree: Tree)

  function List(t: Tree, p: Key): seq<Entry>
    decreases t, 1, 0
  {
    [Entry(p, t)] + Below(t, p)
  }

  /** The entries strictly below the node. */
  function Below(t: Tree, p: Key): seq<Entry>
    decreases t, 0, 0
  {
    match t
    case Empty => []
    case Val(_) => []
    case Ext(key, sub) => List(sub, p + key)
    case Branch(kids) => KidsFrom(kids, 0, p)
  }

  /** The entries under the children from index `i` on. */
  function KidsFrom(kids: seq<Tree>, i: nat, p: Key): seq<Entry>
    decreases kids, 0, |kids| - i
  {
    if i >= |kids| then []
    else (if kids[i].Empty? then [] else List(kids[i], p + [i])) + KidsFrom(kids, i + 1, p)
  }

  // ---------------------------------------------------------------------------
  // `bytes.Compare`
  // ---------------------------------------------------------------------------

  predicate Less(a: Key, b: Key) {
    b != [] && (a == [] || a[0] < b[0] || (a[0] == b[0] && Less(a[1..], b[1..])))
  }

  predicate AtLeast(a: Key, b: Key) { !Less(a, b) }

  lemma {:induction false} LessTrans(a: Key, b: Key, c: Key)
    requires Less(a, b) && Less(b, c)
    ensures Less(a, c)
  {
    if a != [] && a[0] == b[0] && b[0] == c[0] { LessTrans(a[1..], b[1..], c[1..]); }
  }

  lemma {:induction false} LessIrreflexive(a: Key)
    ensures !Less(a, a)
  {
    if a != [] { LessIrreflexive(a[1..]); }
  }

  lemma {:induction false} LessTotal(a: Key, b: Key)
    ensures Less(a, b) || Less(b, a) || a == b
  {
    if a != [] && b != [] && a[0] == b[0] {
      LessTotal(a[1..], b[1..]);
      assert a == [a[0]] + a[1..] && b == [b[0]] + b[1..];
    }
  }

  lemma {:induction false} LessPrefix(a: Key, b: Key)
    requires a <= b
    ensures Less(a, b) <==> a != b
  {
    if a != [] {
      LessPrefix(a[1..], b[1..]);
      assert a == [a[0]] + a[1..] && b == [b[0]] + b[1..];
    }
  }

  /** Keys that part at `|p|` are ordered by the nibbles they part with. */
  lemma {:induction false} LessAfterPrefix(p: Key, a: Key, b: Key)
    requires p <= a && p <= b
    ensures Less(a, b) <==> Less(a[|p|..], b[|p|..])
  {
    if p != [] {
      LessAfterPrefix(p[1..], a[1..], b[1..]);
      assert a[1..][|p| - 1..] == a[|p|..] && b[1..][|p| - 1..] == b[|p|..];
    }
  }

  /** A key below `key` that is not a prefix of it stays below `key` however it is extended. */
  lemma {:induction false} LessExtended(a: Key, key: Key, b: Key)
    requires Less(a, key) && !(a <= key) && a <= b
    ensures Less(b, key)
  {
    if a[0] == key[0] {
      assert a == [a[0]] + a[1..] && key == [key[0]] + key[1..];
      LessExtended(a[1..], key[1..], b[1..]);
    }
  }

  // ---------------------------------------------------------------------------
  // The listing is sorted
  // ---------------------------------------------------------------------------

  ghost predicate Sorted(es: seq<Entry>) {
    forall i, j :: 0 <= i < j < |es| ==> Less(es[i].path, es[j].path)
  }

  ghost predicate AllUnder(es: seq<Entry>, p: Key) {
    forall e :: e in es ==> p <= e.path
  }

  ghost predicate AllBefore(es: seq<Entry>, es': seq<Entry>) {
    forall e, e' :: e in es && e' in es' ==> Less(e.path, e'.path)
  }

  lemma {:induction false} SortedConcat(es: seq<Entry>, es': seq<Entry>)
    requires Sorted(es) && Sorted(es') && AllBefore(es, es')
    ensures Sorted(es + es')
  {
    var all := es + es';
    forall i, j | 0 <= i < j < |all| ensures Less(all[i].path, all[j].path) {
      if i < |es| <= j { assert es[i] in es && es'[j - |es|] in es'; }
    }
  }

  lemma {:induction false} ListUnder(t: Tree, p: Key)
    ensures AllUnder(List(t, p), p)
    ensures forall e :: e in Below(t, p) ==> p <= e.path
    decreases t, 1, 0
  {
    match t
    case Empty =>
    case Val(_) =>
    case Ext(key, sub) => ListUnder(sub, p + key); UnderLonger(List(sub, p + key), p, key);
    case Branch(kids) => KidsUnder(kids, 0, p);
  }

  lemma {:induction false} UnderLonger(es: seq<Entry>, p: Key, q: Key)
    requires AllUnder(es, p + q)
    ensures AllUnder(es, p)
  {
    forall e | e in es ensures p <= e.path { assert p + q <= e.path; assert e.path[..|p|] == p; }
  }

  lemma {:induction false} KidsUnder(kids: seq<Tree>, i: nat, p: Key)
    ensures AllUnder(KidsFrom(kids, i, p), p)
    ensures forall e :: e in KidsFrom(kids, i, p) ==> |e.path| > |p| && e.path[|p|] >= i
    decreases kids, 0, |kids| - i
  {
    if i < |kids| {
      KidsUnder(kids, i + 1, p);
      if !kids[i].Empty? {
        ListUnder(kids[i], p + [i]);
        UnderLonger(List(kids[i], p + [i]), p, [i]);
        forall e | e in List(kids[i], p + [i]) ensures |e.path| > |p| && e.path[|p|] == i {
          assert p + [i] <= e.path;
        }
      }
    }
  }

  lemma {:induction false} BelowSorted(t: Tree, p: Key, end: bool)
    requires WF(t, end)
    ensures Sorted(Below(t, p)) && AllBefore([Entry(p, t)], Below(t, p)) && Sorted(List(t, p))
    decreases t, 1, 0
  {
    match t
    case Empty =>
    case Val(_) =>
    case Ext(key, sub) =>
      BelowSorted(sub, p + key, HasTerm(key));
      ListUnder(sub, p + key);
      forall e | e in Below(t, p) ensures Less(p, e.path) {
        assert p + key <= e.path;
        assert e.path[..|p|] == p;
        LessPrefix(p, e.path);
      }
      SortedConcat([Entry(p, t)], Below(t, p));
    case Branch(kids) =>
      KidsSorted(kids, 0, p);
      KidsUnder(kids, 0, p);
      forall e | e in Below(t, p) ensures Less(p, e.path) {
        LessPrefix(p, e.path);
      }
      SortedConcat([Entry(p, t)], Below(t, p));
  }

  lemma {:induction false} KidsSorted(kids: seq<Tree>, i: nat, p: Key)
    requires |kids| == 17 && forall j :: 0 <= j < 17 ==> WF(kids[j], j == TERMINATOR)
    ensures Sorted(KidsFrom(kids, i, p))
    decreases kids, 0, |kids| - i
  {
    if i < |kids| {
      KidsSorted(kids, i + 1, p);
      if !kids[i].Empty? {
        BelowSorted(kids[i], p + [i], i == TERMINATOR);
        ListUnder(kids[i], p + [i]);
        KidsUnder(kids, i + 1, p);
        var es, es' := List(kids[i], p + [i]), KidsFrom(kids, i + 1, p);
        forall e, e' | e in es && e' in es' ensures Less(e.path, e'.path) {
          assert p + [i] <= e.path;
          assert e.path[..|p|] == p && e.path[|p|] == i;
          LessAfterPrefix(p, e.path, e'.path);
        }
        SortedConcat(es, es');
      }
    }
  }

  /** The entries under a listed node's path are the listing of that node. */
  lemma {:induction false} UnderListed(r: Tree, q: Key, end: bool, e: Entry, x: Entry)
    requires WF(r, end) && e in List(r, q) && x in List(r, q) && e.path <= x.path
    ensures x in List(e.tree, e.path)
    decreases r, 1, 0
  {
    if e != Entry(q, r) {
      match r
      case Ext(key, sub) =>
        ListUnder(sub, q + key);
        assert q + key <= e.path;
        UnderListed(sub, q + key, HasTerm(key), e, x);
      case Branch(kids) =>
        KidsUnder(kids, 0, q);
        UnderListedKid(kids, 0, q, e, x);
      case _ =>
    }
  }

  lemma {:induction false} UnderListedKid(kids: seq<Tree>, i: nat, q: Key, e: Entry, x: Entry)
    requires |kids| == 17 && forall j :: 0 <= j < 17 ==> WF(kids[j], j == TERMINATOR)
    requires e in KidsFrom(kids, i, q) && x in KidsFrom(kids, i, q) && e.path <= x.path
    ensures x in List(e.tree, e.path)
    decreases kids, 0, |kids| - i
  {
    KidsUnder(kids, i + 1, q);
    if !kids[i].Empty? {
      ListUnder(kids[i], q + [i]);
      assert forall y :: y in List(kids[i], q + [i]) ==> q + [i] <= y.path;
      assert forall y :: q + [i] <= y ==> |y| > |q| && y[|q|] == i;
    }
    if !kids[i].Empty? && e in List(kids[i], q + [i]) {
      UnderListed(kids[i], q + [i], i == TERMINATOR, e, x);
    } else {
      UnderListedKid(kids, i + 1, q, e, x);
    }
  }

  // ---------------------------------------------------------------------------
  // The leaves are the map
  // ---------------------------------------------------------------------------

  /** A leaf of the listing is a stored pair: the path below `p` looks up the value. */
  lemma {:induction false} LeafIsStored(t: Tree, p: Key, end: bool, e: Entry)
    requires WF(t, end) && e in List(t, p) && e.tree.Val?
    ensures p <= e.path && KeyAt(e.path[|p|..], end) && Lookup(t, e.path[|p|..]) == Some(e.tree.v)
    decreases t, 1, 0
  {
    if e != Entry(p, t) {
      match t
      case Ext(key, sub) =>
        LeafIsStored(sub, p + key, HasTerm(key), e);
        var rest := e.path[|p + key|..];
        Prepend(key, rest);
        assert e.path[|p|..] == key + rest;
      case Branch(kids) => KidLeafIsStored(kids, 0, p, e);
      case _ =>
    }
  }

  lemma {:induction false} KidLeafIsStored(kids: seq<Tree>, i: nat, p: Key, e: Entry)
    requires |kids| == 17 && forall j :: 0 <= j < 17 ==> WF(kids[j], j == TERMINATOR)
    requires e in KidsFrom(kids, i, p) && e.tree.Val?
    ensures p <= e.path && Terminated(e.path[|p|..]) && Lookup(Branch(kids), e.path[|p|..]) == Some(e.tree.v)
    decreases kids, 0, |kids| - i
  {
    if !kids[i].Empty? && e in List(kids[i], p + [i]) {
      LeafIsStored(kids[i], p + [i], i == TERMINATOR, e);
      var rest := e.path[|p| + 1..];
      PrependNibble(i, rest);
      assert e.path[|p|..] == [i] + rest;
    } else {
      KidLeafIsStored(kids, i + 1, p, e);
    }
  }

  /** A stored pair is listed. */
  lemma {:induction false} StoredIsLeaf(t: Tree, p: Key, end: bool, k: Key)
    requires WF(t, end) && KeyAt(k, end) && Lookup(t, k).Some?
    ensures Entry(p + k, Val(Lookup(t, k).value)) in List(t, p)
    decreases t, 1, 0
  {
    match t
    case Val(v) => assert p + k == p;
    case Ext(key, sub) =>
      KeyBelow(key, k);
      StoredIsLeaf(sub, p + key, HasTerm(key), k[|key|..]);
      assert p + key + k[|key|..] == p + k;
    case Branch(kids) =>
      KeyBelowBranch(k);
      StoredIsLeaf(kids[k[0]], p + [k[0]], k[0] == TERMINATOR, k[1..]);
      assert p + [k[0]] + k[1..] == p + k;
      KidsContain(kids, 0, k[0], p, Entry(p + k, Val(Lookup(t, k).value)));
  }

  lemma {:induction false} KidsContain(kids: seq<Tree>, i: nat, j: nat, p: Key, e: Entry)
    requires i <= j < |kids| && !kids[j].Empty? && e in List(kids[j], p + [j])
    ensures e in KidsFrom(kids, i, p)
    decreases j - i
  {
    var here := if kids[i].Empty? then [] else List(kids[i], p + [i]);
    assert KidsFrom(kids, i, p) == here + KidsFrom(kids, i + 1, p);
    if i < j { KidsContain(kids, i + 1, j, p, e); }
  }

  /** The terminator marks exactly the paths of leaves. */
  lemma {:induction false} TermIsLeaf(t: Tree, p: Key, end: bool, e: Entry)
    requires WF(t, end) && (HasTerm(p) <==> end) && (end ==> t.Val?) && e in List(t, p)
    ensures HasTerm(e.path) <==> e.tree.Val?
    decreases t, 1, 0
  {
    if e != Entry(p, t) {
      match t
      case Ext(key, sub) => TermIsLeaf(sub, p + key, HasTerm(key), e);
      case Branch(kids) => KidTermIsLeaf(kids, 0, p, e);
      case _ =>
    }
  }

  lemma {:induction false} KidTermIsLeaf(kids: seq<Tree>, i: nat, p: Key, e: Entry)
    requires |kids| == 17 && forall j :: 0 <= j < 17 ==> WF(kids[j], j == TERMINATOR)
    requires e in KidsFrom(kids, i, p)
    ensures HasTerm(e.path) <==> e.tree.Val?
    decreases kids, 0, |kids| - i
  {
    if !kids[i].Empty? && e in List(kids[i], p + [i]) {
      TermIsLeaf(kids[i], p + [i], i == TERMINATOR, e);
    } else {
      KidTermIsLeaf(kids, i + 1, p, e);
    }
  }

  /** The key/value pairs among some entries, in order. */
  function Pairs(es: seq<Entry>): seq<(Key, Bytes)> {
    if es == [] then []
    else (if es[0].tree.Val? then [(es[0].path, es[0].tree.v)] else []) + Pairs(es[1..])
  }

  lemma {:induction false} PairsIn(es: seq<Entry>, k: Key, v: Bytes)
    ensures (k, v) in Pairs(es) <==> Entry(k, Val(v)) in es
  {
    if es != [] {
      PairsIn(es[1..], k, v);
      assert es == [es[0]] + es[1..];
    }
  }

  /** The entries at or above the key. */
  function From(es: seq<Entry>, key: Key): seq<Entry> {
    if es == [] then [] else (if AtLeast(es[0].path, key) then [es[0]] else []) + From(es[1..], key)
  }

  /** Entries below the key in front do not matter. */
  lemma {:induction false} FromDrop(low: seq<Entry>, es: seq<Entry>, key: Key)
    requires forall e :: e in low ==> Less(e.path, key)
    ensures From(low + es, key) == From(es, key)
  {
    if low == [] {
      assert low + es == es;
    } else {
      assert low[0] in low && (low + es)[1..] == low[1..] + es;
      FromDrop(low[1..], es, key);
    }
  }

  lemma {:induction false} FromAll(es: seq<Entry>, key: Key)
    requires forall e :: e in es ==> AtLeast(e.path, key)
    ensures From(es, key) == es
  {
    if es != [] {
      assert es[0] in es && es == [es[0]] + es[1..];
      FromAll(es[1..], key);
    }
  }

  lemma {:induction false} FromIn(es: seq<Entry>, key: Key, e: Entry)
    ensures e in From(es, key) <==> e in es && AtLeast(e.path, key)
  {
    if es != [] {
      assert es == [es[0]] + es[1..];
      FromIn(es[1..], key, e);
    }
  }

  ghost predicate Rising(pairs: seq<(Key, Bytes)>) {
    forall i, j :: 0 <= i < j < |pairs| ==> Less(pairs[i].0, pairs[j].0)
  }

  /** Pairs of sorted entries come in rising order of their keys, so each once. */
  lemma {:induction false} PairsRise(es: seq<Entry>)
    requires Sorted(es)
    ensures Rising(Pairs(es))
  {
    if es != [] {
      var rest := es[1..];
      PairsRise(rest);
      forall k, v | (k, v) in Pairs(rest) ensures Less(es[0].path, k) {
        PairsIn(rest, k, v);
        var j :| 0 <= j < |rest| && rest[j] == Entry(k, Val(v));
        assert es[j + 1] == rest[j];
      }
    }
  }

  lemma {:induction false} FromSorted(es: seq<Entry>, key: Key)
    requires Sorted(es)
    ensures Sorted(From(es, key))
  {
    if es != [] {
      var rest := es[1..];
      FromSorted(rest, key);
      forall e | e in From(rest, key) ensures Less(es[0].path, e.path) {
        FromIn(rest, key, e);
        var j :| 0 <= j < |rest| && rest[j] == e;
        assert es[j + 1] == e;
      }
    }
  }

  /** Exactly the pairs of the trie at or above the key, each once, in rising order. */
  ghost predicate AllFrom(pairs: seq<(Key, Bytes)>, t: Tree, key: Key) {
    Rising(pairs) && forall k, v :: (k, v) in pairs <==> Stored(t, k, v) && AtLeast(k, key)
  }

  /** Ordered, complete iteration: the pairs among the listed entries at or above a key. */
  lemma {:induction false} PairsAbove(t: Tree, key: Key)
    requires WF(t, false)
    ensures AllFrom(Pairs(From(List(t, []), key)), t, key)
  {
    var es := List(t, []);
    BelowSorted(t, [], false);
    FromSorted(es, key);
    PairsRise(From(es, key));
    forall k, v ensures (k, v) in Pairs(From(es, key)) <==> Stored(t, k, v) && AtLeast(k, key) {
      PairsIn(From(es, key), k, v);
      FromIn(es, key, Entry(k, Val(v)));
      ListedIsStored(t, k, v);
    }
  }

  /** The trie holds the pair. */
  predicate Stored(t: Tree, k: Key, v: Bytes) {
    Terminated(k) && Lookup(t, k) == Some(v)
  }

  lemma {:induction false} ListedIsStored(t: Tree, k: Key, v: Bytes)
    requires WF(t, false)
    ensures Entry(k, Val(v)) in List(t, []) <==> Stored(t, k, v)
  {
    if Entry(k, Val(v)) in List(t, []) {
      LeafIsStored(t, [], false, Entry(k, Val(v)));
      assert k[0..] == k;
    }
    if Stored(t, k, v) {
      StoredIsLeaf(t, [], false, k);
      assert [] + k == k;
    }
  }
}
