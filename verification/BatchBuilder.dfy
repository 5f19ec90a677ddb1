/**
 verifyConfirmBatch of core/tx_pool.go: it sums up what the elders of a sequencer take from and
 give to every address, collects each sender's transactions by nonce, and checks balances and
 nonces.  Elders and addresses are visited in any order.
 */
module BatchBuilder {
  import opened Sums
  import opened Ledger
  import opened Batches
  import opened Nonces

  const NO_DETAIL := Detail(map[], [], 0, 0)

  function DetailOf(b: Batch, a: Address): Detail {
    if a in b then b[a] else NO_DETAIL
  }

  ghost predicate Heaps(b: Batch) {
    forall a :: a in b ==> Heap(b[a].keys)
  }

  /** Puts a transaction on its sender's list, unless the nonce is taken. */
  method Put(d: Detail, t: Tx) returns (r: Detail)
    requires KeysOf(d) && Heap(d.keys)
    ensures KeysOf(r) && Heap(r.keys) && r.neg == d.neg && r.pos == d.pos
    ensures r.list == if t.nonce in d.list then d.list else d.list[t.nonce := t]
  {
    if t.nonce in d.list { return d; }
    var keys := HeapPush(d.keys, t.nonce);
    PushedKeys(d, keys, t);
    r := d.(keys := keys, list := d.list[t.nonce := t]);
  }

  lemma {:induction false} PushedKeys(d: Detail, keys: seq<nat>, t: Tx)
    requires KeysOf(d) && t.nonce !in d.list && multiset(keys) == multiset(d.keys) + multiset{t.nonce}
    ensures KeysOf(d.(keys := keys, list := d.list[t.nonce := t]))
  {
    PushedOnce(d.keys, keys, t.nonce);
  }

  // ---------------------------------------------------------------------------
  // Building
  // ---------------------------------------------------------------------------

  ghost predicate SentAndGot(b: Batch, b': Batch, t: Tx)
    requires t.Normal?
  {
    && b'.Keys == b.Keys + {t.sender, t.to}
    && (forall a :: a in b' && a != t.sender && a != t.to ==> b'[a] == b[a])
    && b'[t.sender].neg == DetailOf(b, t.sender).neg + t.value
    && b'[t.sender].pos == DetailOf(b, t.sender).pos + (if t.to == t.sender then t.value else 0)
    && b'[t.sender].list == Listing(DetailOf(b, t.sender), t)
    && KeysOf(b'[t.sender])
    && (t.to != t.sender ==> b'[t.to] == DetailOf(b, t.to).(pos := DetailOf(b, t.to).pos + t.value))
  }

  function Listing(d: Detail, t: Tx): map<nat, Tx> {
    if t.nonce in d.list then d.list else d.list[t.nonce := t]
  }

  method AddNormal(b: Batch, t: Tx) returns (r: Batch)
    requires t.Normal? && Heaps(b) && forall a :: a in b ==> KeysOf(b[a])
    ensures SentAndGot(b, r, t) && Heaps(r)
  {
    var from := Put(DetailOf(b, t.sender), t);
    r := b[t.sender := from.(neg := from.neg + t.value)];
    var to := DetailOf(r, t.to);
    r := r[t.to := to.(pos := to.pos + t.value)];
  }

  lemma {:induction false} NegStep(elders: Elders, done: set<Hash>, h: Hash, a: Address)
    requires h in elders && h !in done
    ensures Neg(elders, done + {h}, a) == Neg(elders, done, a) + OutOf(elders[h], a)
    ensures Pos(elders, done + {h}, a) == Pos(elders, done, a) + InTo(elders[h], a)
  {
    SumAdd(done, x => OutAt(elders, x, a), h);
    SumAdd(done, x => InAt(elders, x, a), h);
  }

  lemma {:induction false} TouchedStep(elders: Elders, done: set<Hash>, h: Hash, a: Address)
    requires h in elders
    ensures Touched(elders, done + {h}, a) <==> Touched(elders, done, a) || (elders[h].Normal? && (elders[h].sender == a || elders[h].to == a))
  {
    if Touched(elders, done, a) {
      var g :| g in done && g in elders && elders[g].Normal? && (elders[g].sender == a || elders[g].to == a);
      assert g in done + {h};
    }
    assert h in done + {h};
  }

  /** A detail that is absent is the detail of an address no elder touches. */
  lemma {:induction false} NoDetailOk(elders: Elders, done: set<Hash>, a: Address)
    requires done <= elders.Keys && !Touched(elders, done, a)
    ensures DetailOk(elders, done, a, NO_DETAIL)
  {
    forall h | h in done ensures OutAt(elders, h, a) == 0 && InAt(elders, h, a) == 0 && (elders[h].Normal? ==> elders[h].sender != a) {
      if elders[h].Normal? { assert elders[h].sender != a && elders[h].to != a; }
    }
    SumExtend({}, done, h => OutAt(elders, h, a));
    SumExtend({}, done, h => InAt(elders, h, a));
  }

  lemma {:induction false} ListStep(elders: Elders, done: set<Hash>, h: Hash, a: Address, d: Detail, d': Detail)
    requires ListOk(elders, done, a, d) && h in elders && elders[h].hash == h && elders[h].Normal? && KeysOf(d')
    requires d'.list == if elders[h].sender == a then Listing(d, elders[h]) else d.list
    ensures ListOk(elders, done + {h}, a, d')
  {
    forall n | n in d'.list
      ensures d'.list[n].Normal? && d'.list[n].sender == a && d'.list[n].nonce == n && Has(elders, done + {h}, d'.list[n])
    {
      if n in d.list { assert Has(elders, done, d.list[n]); }
    }
    forall g | g in done + {h} && g in elders && elders[g].Normal? && elders[g].sender == a ensures elders[g].nonce in d'.list {}
  }

  /** What a transaction does to the detail of an address. */
  ghost predicate Booked(d: Detail, d': Detail, t: Tx, a: Address) {
    && d'.neg == d.neg + OutOf(t, a) && d'.pos == d.pos + InTo(t, a) && KeysOf(d')
    && d'.list == if t.sender == a then Listing(d, t) else d.list
  }

  lemma {:induction false} BookedAt(b: Batch, b': Batch, t: Tx, a: Address)
    requires t.Normal? && SentAndGot(b, b', t) && a in b' && KeysOf(DetailOf(b, a))
    ensures Booked(DetailOf(b, a), b'[a], t, a)
  {
  }

  lemma {:induction false} DetailStep(elders: Elders, done: set<Hash>, d: Detail, d': Detail, h: Hash, a: Address)
    requires h in elders && h !in done && elders[h].hash == h && elders[h].Normal?
    requires DetailOk(elders, done, a, d) && Booked(d, d', elders[h], a)
    ensures DetailOk(elders, done + {h}, a, d')
  {
    NegStep(elders, done, h, a);
    ListStep(elders, done, h, a, d, d');
  }

  lemma {:induction false} DetailBefore(elders: Elders, done: set<Hash>, b: Batch, a: Address)
    requires IsBatch(elders, done, b) && done <= elders.Keys
    ensures DetailOk(elders, done, a, DetailOf(b, a))
  {
    if a !in b { NoDetailOk(elders, done, a); } else { assert DetailOk(elders, done, a, b[a]); }
  }

  lemma {:induction false} BatchStep(elders: Elders, done: set<Hash>, b: Batch, b': Batch, h: Hash)
    requires IsBatch(elders, done, b) && done <= elders.Keys && h in elders && h !in done && elders[h].hash == h && elders[h].Normal?
    requires SentAndGot(b, b', elders[h])
    ensures IsBatch(elders, done + {h}, b')
  {
    forall a ensures a in b' <==> Touched(elders, done + {h}, a) { TouchedStep(elders, done, h, a); }
    forall a | a in b' ensures DetailOk(elders, done + {h}, a, b'[a]) {
      DetailBefore(elders, done, b, a);
      BookedAt(b, b', elders[h], a);
      DetailStep(elders, done, DetailOf(b, a), b'[a], h, a);
    }
  }

  /** A sequencer among the elders changes nothing. */
  lemma {:induction false} BatchSkip(elders: Elders, done: set<Hash>, b: Batch, h: Hash)
    requires IsBatch(elders, done, b) && h in elders && h !in done && elders[h].Sequencer?
    ensures IsBatch(elders, done + {h}, b)
  {
    forall a ensures a in b <==> Touched(elders, done + {h}, a) { TouchedStep(elders, done, h, a); }
    forall a | a in b ensures DetailOk(elders, done + {h}, a, b[a]) {
      assert DetailOk(elders, done, a, b[a]);
      NegStep(elders, done, h, a);
      forall n | n in b[a].list ensures Has(elders, done + {h}, b[a].list[n]) { assert Has(elders, done, b[a].list[n]); }
    }
  }

  ghost predicate Unpaired(elders: Elders, done: set<Hash>, s: Tx) {
    forall h :: h in done && h in elders ==> (elders[h].sender, elders[h].nonce) != (s.sender, s.nonce)
  }

  method Build(elders: Elders, s: Tx) returns (ok: bool, b: Batch)
    requires Hashed(elders)
    ensures ok <==> Unpaired(elders, elders.Keys, s)
    ensures ok ==> IsBatch(elders, elders.Keys, b)
  {
    b := map[];
    var rest := elders.Keys;
    ghost var done: set<Hash> := {};
    while rest != {}
      invariant rest !! done && rest + done == elders.Keys
      invariant IsBatch(elders, done, b) && Heaps(b) && Unpaired(elders, done, s)
      decreases |rest|
    {
      var h :| h in rest;
      var t := elders[h];
      if t.sender == s.sender && t.nonce == s.nonce { return false, b; }
      b := AddElder(elders, done, b, h);
      rest, done := rest - {h}, done + {h};
    }
    assert done == elders.Keys;
    ok := true;
  }

  method AddElder(elders: Elders, ghost done: set<Hash>, b: Batch, h: Hash) returns (b': Batch)
    requires Hashed(elders) && done <= elders.Keys && h in elders && h !in done && IsBatch(elders, done, b) && Heaps(b)
    ensures IsBatch(elders, done + {h}, b') && Heaps(b')
  {
    var t := elders[h];
    if t.Normal? {
      forall a | a in b ensures KeysOf(b[a]) { assert DetailOk(elders, done, a, b[a]); }
      b' := AddNormal(b, t);
      BatchStep(elders, done, b, b', h);
    } else {
      b' := b;
      BatchSkip(elders, done, b, h);
    }
  }

  // ---------------------------------------------------------------------------
  // Checking
  // ---------------------------------------------------------------------------

  /** One address: it can pay, and its nonces go on without a gap. */
  method CheckDetail(acc: Accounts, s: Tx, a: Address, d: Detail) returns (ok: bool)
    requires KeysOf(d)
    ensures ok <==> DetailAccepted(acc, s, a, d)
  {
    if Balance(acc, a) < d.neg { return false; }
    if d.keys == [] { return true; }
    var sorted;
    ok, sorted := VerifyNonce(acc, a, d.keys, s);
    assert NonceSet(d.keys) == d.list.Keys;
  }

  ghost predicate AllAccepted(acc: Accounts, s: Tx, b: Batch, done: set<Address>) {
    forall a :: a in done && a in b ==> DetailAccepted(acc, s, a, b[a])
  }

  /** The addresses are checked in any order. */
  method Check(acc: Accounts, s: Tx, b: Batch) returns (ok: bool)
    requires forall a :: a in b ==> KeysOf(b[a])
    ensures ok <==> AllAccepted(acc, s, b, b.Keys)
  {
    var rest := b.Keys;
    ghost var done: set<Address> := {};
    while rest != {}
      invariant rest + done == b.Keys && AllAccepted(acc, s, b, done)
      decreases |rest|
    {
      var a :| a in rest;
      ok := CheckDetail(acc, s, a, b[a]);
      if !ok { return; }
      rest, done := rest - {a}, done + {a};
    }
    assert done == b.Keys;
    ok := true;
  }

  // ---------------------------------------------------------------------------
  // Verifying
  // ---------------------------------------------------------------------------

  /** The nonces of the elders an address sent. */
  ghost function NoncesUsed(elders: Elders, a: Address): set<nat> {
    set h | h in elders && elders[h].Normal? && elders[h].sender == a :: elders[h].nonce
  }

  /** The address can pay for all elders it sent, and their nonces go on without a gap. */
  ghost predicate AddressOk(acc: Accounts, s: Tx, elders: Elders, a: Address) {
    Neg(elders, elders.Keys, a) <= Balance(acc, a) && (NoncesUsed(elders, a) != {} ==> NoncesOk(acc, a, NoncesUsed(elders, a), s))
  }

  /** What verifyConfirmBatch promises, in terms of the elders alone. */
  ghost predicate Confirmable(acc: Accounts, s: Tx, elders: Elders) {
    Unpaired(elders, elders.Keys, s) && forall a :: Touched(elders, elders.Keys, a) ==> AddressOk(acc, s, elders, a)
  }

  lemma {:induction false} DetailMeans(acc: Accounts, s: Tx, elders: Elders, a: Address, d: Detail)
    requires DetailOk(elders, elders.Keys, a, d)
    ensures DetailAccepted(acc, s, a, d) <==> AddressOk(acc, s, elders, a)
  {
    forall n ensures n in d.list <==> n in NoncesUsed(elders, a) {
      if n in d.list {
        assert Has(elders, elders.Keys, d.list[n]);
        assert elders[d.list[n].hash].nonce in NoncesUsed(elders, a);
      }
    }
    assert d.list.Keys == NoncesUsed(elders, a);
    assert d.keys != [] ==> d.keys[0] in d.keys;
  }

  method VerifyConfirmBatch(acc: Accounts, s: Tx, elders: Elders) returns (ok: bool, b: Batch)
    requires Hashed(elders)
    ensures ok <==> Confirmable(acc, s, elders)
    ensures ok ==> IsBatch(elders, elders.Keys, b) && Accepted(acc, s, elders, b)
  {
    ok, b := Build(elders, s);
    if !ok { return; }
    forall a | a in b
      ensures KeysOf(b[a]) && (DetailAccepted(acc, s, a, b[a]) <==> AddressOk(acc, s, elders, a))
    {
      assert DetailOk(elders, elders.Keys, a, b[a]);
      DetailMeans(acc, s, elders, a, b[a]);
    }
    ok := Check(acc, s, b);
  }
}
