/**
 The nonce heap of core/account_flow.go and the nonce check of core/tx_pool.go: a binary heap
 kept in a slice, sorted in place when its tail is wanted or when its nonces are verified.
 */
module Nonces {
  import opened Ledger
  import opened Batches

  // ---------------------------------------------------------------------------
  // The heap
  // ---------------------------------------------------------------------------

  /** The heap order at one element. */
  predicate Above(s: seq<nat>, i: nat) {
    0 < i < |s| ==> s[(i - 1) / 2] <= s[i]
  }

  ghost predicate Heap(s: seq<nat>) {
    forall i: nat {:trigger Above(s, i)} :: Above(s, i)
  }

  ghost predicate Sorted(s: seq<nat>) {
    forall i, j :: 0 <= i < j < |s| ==> s[i] <= s[j]
  }

  ghost predicate Rising(s: seq<nat>) {
    forall i, j :: 0 <= i < j < |s| ==> s[i] < s[j]
  }

  /** A heap but for the element at `j`, which may be smaller than its parent. */
  ghost predicate HeapBut(s: seq<nat>, j: nat) {
    && (forall i: nat {:trigger Above(s, i)} :: i != j ==> Above(s, i))
    && (0 < j < |s| ==> forall i :: 2 * j < i < |s| && i <= 2 * j + 2 ==> s[(j - 1) / 2] <= s[i])
  }

  /** Appends and sifts up. */
  method HeapPush(s: seq<nat>, x: nat) returns (r: seq<nat>)
    requires Heap(s)
    ensures Heap(r) && multiset(r) == multiset(s) + multiset{x}
  {
    r := s + [x];
    var j := |s|;
    forall i: nat | i != j ensures Above(r, i) { assert Above(s, i); }
    while j > 0 && r[j] < r[(j - 1) / 2]
      invariant 0 <= j < |r| && |r| == |s| + 1
      invariant multiset(r) == multiset(s) + multiset{x}
      invariant HeapBut(r, j)
    {
      var i := (j - 1) / 2;
      SiftStep(r, j);
      r := r[i := r[j]][j := r[i]];
      j := i;
    }
    assert Above(r, j);
  }

  lemma {:induction false} SiftStep(s: seq<nat>, j: nat)
    requires 0 < j < |s| && HeapBut(s, j) && s[j] < s[(j - 1) / 2]
    ensures HeapBut(s[(j - 1) / 2 := s[j]][j := s[(j - 1) / 2]], (j - 1) / 2)
  {
    var i := (j - 1) / 2;
    var r := s[i := s[j]][j := s[i]];
    forall k: nat | k != i ensures Above(r, k) {
      assert Above(s, k) || k == j;
    }
    if 0 < i {
      forall k | 2 * i < k < |r| && k <= 2 * i + 2 ensures r[(i - 1) / 2] <= r[k] {
        assert Above(s, i) && (Above(s, k) || k == j);
      }
    }
  }

  lemma {:induction false} SortedIsHeap(s: seq<nat>)
    requires Sorted(s)
    ensures Heap(s)
  {
    forall i: nat ensures Above(s, i) {}
  }

  // ---------------------------------------------------------------------------
  // Sorting
  // ---------------------------------------------------------------------------

  method Sort(s: seq<nat>) returns (r: seq<nat>)
    ensures Sorted(r) && multiset(r) == multiset(s)
  {
    r := [];
    var i := 0;
    while i < |s|
      invariant 0 <= i <= |s| && Sorted(r) && multiset(r) == multiset(s[..i])
    {
      assert s[..i + 1] == s[..i] + [s[i]];
      r := InsertSorted(r, s[i]);
      i := i + 1;
    }
    assert s[..i] == s;
  }

  method InsertSorted(s: seq<nat>, x: nat) returns (r: seq<nat>)
    requires Sorted(s)
    ensures Sorted(r) && multiset(r) == multiset(s) + multiset{x}
  {
    var i := 0;
    while i < |s| && s[i] <= x
      invariant 0 <= i <= |s| && forall j :: 0 <= j < i ==> s[j] <= x
    {
      i := i + 1;
    }
    r := s[..i] + [x] + s[i..];
    Inserted(s, i, x);
  }

  lemma {:induction false} Inserted(s: seq<nat>, i: nat, x: nat)
    requires i <= |s| && Sorted(s) && (forall j :: 0 <= j < i ==> s[j] <= x) && (i < |s| ==> x <= s[i])
    ensures Sorted(s[..i] + [x] + s[i..]) && multiset(s[..i] + [x] + s[i..]) == multiset(s) + multiset{x}
  {
    assert s == s[..i] + s[i..];
    var r := s[..i] + [x] + s[i..];
    forall j, k | 0 <= j < k < |r| ensures r[j] <= r[k] {
      InsertedAt(s, i, x, j);
      InsertedAt(s, i, x, k);
    }
  }

  lemma {:induction false} InsertedAt(s: seq<nat>, i: nat, x: nat, j: nat)
    requires i <= |s| && j <= |s|
    ensures (s[..i] + [x] + s[i..])[j] == if j < i then s[j] else if j == i then x else s[j - 1]
  {
  }

  /** The largest nonce, found by sorting. */
  method Tail(s: seq<nat>) returns (n: nat, r: seq<nat>)
    requires |s| > 0
    ensures n in s && (forall x :: x in s ==> x <= n) && Sorted(r) && multiset(r) == multiset(s)
  {
    r := Sort(s);
    n := LastOf(s, r);
  }

  method LastOf(ghost s: seq<nat>, r: seq<nat>) returns (n: nat)
    requires |s| > 0 && Sorted(r) && multiset(r) == multiset(s)
    ensures n in s && forall x :: x in s ==> x <= n
  {
    SameElements(r, s);
    n := r[|r| - 1];
    assert n in r;
    forall x | x in s ensures x <= n {
      assert x in r;
    }
  }

  lemma {:induction false} SameElements(r: seq<nat>, s: seq<nat>)
    requires multiset(r) == multiset(s)
    ensures |r| == |s| && forall x :: x in r <==> x in s
  {
    assert |r| == |multiset(r)| && |s| == |multiset(s)|;
    forall x ensures x in r <==> x in s {
      assert x in multiset(r) <==> x in multiset(s);
    }
  }

  // ---------------------------------------------------------------------------
  // Verifying nonces
  // ---------------------------------------------------------------------------

  lemma {:induction false} SortedRises(r: seq<nat>, s: seq<nat>)
    requires Sorted(r) && multiset(r) == multiset(s) && NoRepeats(s)
    ensures Rising(r)
  {
    forall i, j | 0 <= i < j < |r| ensures r[i] < r[j] {
      Once(s, r[j]);
      Twice(r, i, j);
    }
  }

  lemma {:induction false} Twice(r: seq<nat>, i: nat, j: nat)
    requires i < j < |r|
    ensures r[i] == r[j] ==> multiset(r)[r[j]] >= 2
  {
    assert r == r[..j] + [r[j]] + r[j + 1..];
    assert r[i] in r[..j];
  }

  lemma {:induction false} Once(s: seq<nat>, x: nat)
    requires NoRepeats(s)
    ensures multiset(s)[x] <= 1
    decreases |s|
  {
    if s != [] {
      var front: seq<nat> := s[..|s| - 1];
      assert s == front + [s[|s| - 1]];
      Once(front, x);
      if x == s[|s| - 1] {
        assert x !in front;
        assert x !in multiset(front);
      }
    }
  }

  /** A new nonce pushed on the heap. */
  lemma {:induction false} PushedOnce(keys: seq<nat>, pushed: seq<nat>, n: nat)
    requires NoRepeats(keys) && n !in keys && multiset(pushed) == multiset(keys) + multiset{n}
    ensures NoRepeats(pushed) && forall x :: x in pushed <==> x in keys || x == n
  {
    var all := keys + [n];
    assert multiset(all) == multiset(pushed);
    SameElements(pushed, all);
    forall i, j | 0 <= i < j < |pushed| ensures pushed[i] != pushed[j] {
      Once(all, pushed[j]);
      Twice(pushed, i, j);
    }
  }

  ghost predicate Steps(r: seq<nat>, k: nat) {
    forall i :: 1 <= i < |r| && i < k ==> r[i] == r[i - 1] + 1
  }

  /** Steps of one make an interval. */
  lemma {:induction false} StepsFill(r: seq<nat>, n: nat)
    requires |r| > 0 && Rising(r) && Steps(r, |r|)
    ensures n in r <==> r[0] <= n <= r[|r| - 1]
    decreases |r|
  {
    if |r| > 1 {
      var front := r[..|r| - 1];
      assert r == front + [r[|r| - 1]] && r[|r| - 1] == r[|r| - 2] + 1;
      StepsFill(front, n);
    }
  }

  lemma {:induction false} NoneBetween(r: seq<nat>, i: nat, n: nat)
    requires Rising(r) && 1 <= i < |r| && n in r
    ensures n <= r[i - 1] || n >= r[i]
  {
    var j :| 0 <= j < |r| && r[j] == n;
    if j <= i - 1 {
      assert j < i - 1 ==> r[j] < r[i - 1];
    } else {
      assert i < j ==> r[i] < r[j];
    }
  }

  /** Rising numbers that fill an interval make steps of one. */
  lemma {:induction false} FillSteps(r: seq<nat>, lo: nat, hi: nat)
    requires |r| > 0 && Rising(r) && hi in r && forall n: nat :: n in r <==> lo <= n <= hi
    ensures r[0] == lo && r[|r| - 1] == hi && Steps(r, |r|)
  {
    assert r[0] in r && r[|r| - 1] in r && lo in r;
    forall i | 1 <= i < |r| ensures r[i] == r[i - 1] + 1 {
      assert r[i] in r && r[i - 1] in r;
      assert r[i - 1] + 1 in r;
      NoneBetween(r, i, r[i - 1] + 1);
    }
  }

  function NonceSet(keys: seq<nat>): set<nat> {
    set n | n in keys
  }

  /** Accepts exactly nonces that go on where the account stopped, without a gap. */
  method VerifyNonce(acc: Accounts, a: Address, keys: seq<nat>, s: Tx) returns (ok: bool, sorted: seq<nat>)
    requires |keys| > 0 && NoRepeats(keys)
    ensures ok <==> NoncesOk(acc, a, NonceSet(keys), s)
    ensures Sorted(sorted) && multiset(sorted) == multiset(keys)
  {
    sorted := Sort(keys);
    SortedRises(sorted, keys);
    SameElements(sorted, keys);
    ok := sorted[0] == (if a in acc then acc[a].nonce + 1 else 0);
    var i := 1;
    while i < |sorted|
      invariant 1 <= i <= |sorted|
      invariant ok <==> sorted[0] == First(acc, a) && Steps(sorted, i)
    {
      if sorted[i] != sorted[i - 1] + 1 { ok := false; }
      i := i + 1;
    }
    if s.sender == a && s.nonce != sorted[|sorted| - 1] + 1 { ok := false; }
    VerifiedNonces(acc, a, keys, sorted, s);
  }

  lemma {:induction false} VerifiedNonces(acc: Accounts, a: Address, keys: seq<nat>, r: seq<nat>, s: Tx)
    requires |r| > 0 && Rising(r) && forall x :: x in r <==> x in keys
    ensures NoncesOk(acc, a, NonceSet(keys), s) <==>
              r[0] == First(acc, a) && Steps(r, |r|) && (s.sender == a ==> s.nonce == r[|r| - 1] + 1)
  {
    var nonces := NonceSet(keys);
    if r[0] == First(acc, a) && Steps(r, |r|) {
      forall n: nat ensures n in nonces <==> First(acc, a) <= n <= r[|r| - 1] { StepsFill(r, n); }
      assert r[|r| - 1] in r;
      assert Continues(acc, a, nonces, r[|r| - 1]);
    }
    if NoncesOk(acc, a, nonces, s) {
      var last: nat :| Continues(acc, a, nonces, last) && (s.sender == a ==> s.nonce == last + 1);
      forall n: nat ensures n in r <==> First(acc, a) <= n <= last { assert n in nonces <==> n in keys; }
      FillSteps(r, First(acc, a), last);
    }
  }
}
