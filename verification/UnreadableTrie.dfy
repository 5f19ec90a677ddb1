/**
 The difference iterator over a first trie that cannot be read at all (trie/iterator.go): the failure
 counts as the end of that trie, and pairs that both tries hold are produced as missing.
 */
module UnreadableTrie {
  import opened Encoding
  import opened Tree
  import opened Listing
  import opened TrieIterator
  import opened DifferenceIterator

  /** In a sorted list, what lies beyond an element of a last part is in that part. */
  lemma {:induction false} SuffixKeeps(all: seq<Entry>, rest: seq<Entry>, x: Entry, y: Entry)
    requires Sorted(all) && Suffix(rest, all) && x in rest && y in all && Less(x.path, y.path)
    ensures y in rest
  {
    var n := |all| - |rest|;
    var i :| 0 <= i < |rest| && rest[i] == x;
    var j :| 0 <= j < |all| && all[j] == y;
    assert all[n + i] == x;
    if j <= n + i {
      LessIrreflexive(x.path);
      if j < n + i { LessTrans(x.path, y.path, x.path); }
      assert false;
    }
    assert rest[j - n] == y;
  }

  lemma {:induction false} InBoth(held: seq<Entry>, all: seq<Entry>, rest: seq<Entry>, k: Key, v: Bytes, k': Key, v': Bytes)
    requires Sorted(all) && Suffix(rest, all) && Pairs(Absent(rest, held)) == Pairs(Absent(all, held)) && Less(k, k')
    requires Entry(k, Val(v)) in all && Entry(k, Val(v)) !in held && Entry(k', Val(v')) in all
    ensures (k, v) in Pairs(rest) && (k', v') in Pairs(rest)
  {
    AbsentPairs(all, held, k, v);
    AbsentPairs(rest, held, k, v);
    PairsIn(all, k, v);
    PairsIn(held, k, v);
    PairsIn(rest, k, v);
    SuffixKeeps(all, rest, Entry(k, Val(v)), Entry(k', Val(v')));
    PairsIn(rest, k', v');
  }

  /** All are pairs of the tree. */
  ghost predicate AllStored(pairs: seq<(Key, Bytes)>, b: Tree) {
    forall k, v :: (k, v) in pairs ==> Stored(b, k, v)
  }

  /** Every pair of `b` beyond a missing one is there, whether `a` holds it or not. */
  ghost predicate AllBeyond(pairs: seq<(Key, Bytes)>, a: Tree, b: Tree) {
    forall k, v, k', v' :: Stored(b, k, v) && !Stored(a, k, v) && Stored(b, k', v') && Less(k, k') ==>
      (k, v) in pairs && (k', v') in pairs
  }

  lemma {:induction false} RestIsStored(b: Tree, all: seq<Entry>, rest: seq<Entry>, k: Key, v: Bytes)
    requires WF(b, false) && all == List(b, []) && Suffix(rest, all) && (k, v) in Pairs(rest)
    ensures Stored(b, k, v)
  {
    PairsIn(rest, k, v);
    assert Entry(k, Val(v)) in all;
    ListedIsStored(b, k, v);
  }

  lemma {:induction false} RestAllStored(b: Tree, all: seq<Entry>, rest: seq<Entry>)
    requires WF(b, false) && all == List(b, []) && Suffix(rest, all)
    ensures AllStored(Pairs(rest), b)
  {
    forall k, v | (k, v) in Pairs(rest) ensures Stored(b, k, v) { RestIsStored(b, all, rest, k, v); }
  }

  lemma {:induction false} RestIsBeyond(a: Tree, b: Tree, held: seq<Entry>, all: seq<Entry>, rest: seq<Entry>)
    requires WF(a, false) && WF(b, false) && held == List(a, []) && all == List(b, [])
    requires Suffix(rest, all) && Pairs(Absent(rest, held)) == Pairs(Absent(all, held))
    ensures AllBeyond(Pairs(rest), a, b)
  {
    forall k, v, k', v' | Stored(b, k, v) && !Stored(a, k, v) && Stored(b, k', v') && Less(k, k')
      ensures (k, v) in Pairs(rest) && (k', v') in Pairs(rest)
    {
      StoredBeyond(a, b, held, all, rest, k, v, k', v');
    }
  }

  lemma {:induction false} StoredBeyond(a: Tree, b: Tree, held: seq<Entry>, all: seq<Entry>, rest: seq<Entry>, k: Key, v: Bytes, k': Key, v': Bytes)
    requires WF(a, false) && WF(b, false) && held == List(a, []) && all == List(b, [])
    requires Suffix(rest, all) && Pairs(Absent(rest, held)) == Pairs(Absent(all, held)) && Less(k, k')
    requires Stored(b, k, v) && !Stored(a, k, v) && Stored(b, k', v')
    ensures (k, v) in Pairs(rest) && (k', v') in Pairs(rest)
  {
    ListedIsStored(a, k, v);
    ListedIsStored(b, k, v);
    ListedIsStored(b, k', v');
    BelowSorted(b, [], false);
    InBoth(held, all, rest, k, v, k', v');
  }

  /** If nothing of the first trie can be loaded, every pair of the second from the first missing one on is produced. */
  method AllFrom(a: NodeIterator, b: NodeIterator, ha: Entry -> nat, hb: Entry -> nat, la: Key -> bool, lb: Key -> bool)
    returns (pairs: seq<(Key, Bytes)>, failed: bool)
    requires a != b && HashesAgree(ha, hb) && Ready(a) && Ready(b) && NoneLoads(la) && forall p :: lb(p)
    requires a.stack == [] && !a.err.Ended? && b.stack == [] && !b.err.Ended?
    modifies a, b
    ensures AllStored(pairs, b.root) && AllBeyond(pairs, a.root, b.root) && (failed || AllMissing(pairs, a.root, b.root))
  {
    ghost var rest, lost;
    pairs, failed, rest, lost := DifferenceOf(a, b, ha, hb, la, lb);
    RestAllStored(b.root, List(b.root, []), rest);
    RestIsBeyond(a.root, b.root, List(a.root, []), List(b.root, []), rest);
  }

  const FIRST: Key := [0, 0, TERMINATOR]
  const SECOND: Key := [1, 0, TERMINATOR]

  /** Child 0 holds 1 and child 1 holds 2, each at the end of a short node. */
  function Kid(i: int): Tree {
    if i == 0 then Ext([0, TERMINATOR], Val([1])) else if i == 1 then Ext([0, TERMINATOR], Val([2])) else Empty
  }

  /** The first trie holds the second pair alone; the second trie holds both. */
  const SMALL := Ext(SECOND, Val([2]))
  const LARGE := Branch(seq(17, i => Kid(i)))

  lemma {:induction false} Tries()
    ensures WF(SMALL, false) && WF(LARGE, false)
    ensures Stored(LARGE, FIRST, [1]) && !Stored(SMALL, FIRST, [1]) && Less(FIRST, SECOND)
    ensures Stored(LARGE, SECOND, [2]) && Stored(SMALL, SECOND, [2])
  {
    var kids := LARGE.kids;
    assert !kids[0].Empty? && !kids[1].Empty?;
    forall i | 0 <= i < 17 ensures WF(kids[i], i == TERMINATOR) { KidOk(i); }
    KidOk(0);
    KidOk(1);
    assert FIRST[1..] == [0, TERMINATOR] && SECOND[1..] == [0, TERMINATOR];
    assert SECOND[0] != FIRST[0];
  }

  lemma {:induction false} KidOk(i: nat)
    requires i < 17
    ensures WF(Kid(i), i == TERMINATOR) && (i < 2 ==> Lookup(Kid(i), [0, TERMINATOR]) == Some(if i == 0 then [1] else [2]))
  {
    var k: Key := [0, TERMINATOR];
    assert k[2..] == [] && HasTerm(k) && HexKey(k);
  }

  method Unread(small: Tree, large: Tree) returns (pairs: seq<(Key, Bytes)>, failed: bool)
    requires WF(small, false) && WF(large, false)
    ensures AllBeyond(pairs, small, large) && (failed || AllMissing(pairs, small, large))
  {
    var a := new NodeIterator(small);
    var b := new NodeIterator(large);
    pairs, failed := AllFrom(a, b, e => 0, e => 0, p => false, p => true);
  }

  /** The run: the pair that both tries hold is produced as missing from the first, and an error is reported. */
  method Run() returns (pairs: seq<(Key, Bytes)>, failed: bool)
    ensures (SECOND, [2]) in pairs && Stored(SMALL, SECOND, [2]) && !AllMissing(pairs, SMALL, LARGE) && failed
  {
    Tries();
    pairs, failed := Unread(SMALL, LARGE);
  }
}
