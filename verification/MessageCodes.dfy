/**
 Message-code negotiation of p2p/peer.go and p2p/protocol.go: each end sorts the other end's
 capabilities and lays the protocols both support out after the base protocol; codes are shifted
 by a protocol's offset on the wire.  Names are numbered in the order the capabilities are sorted.
 */
module MessageCodes {
  import opened Sums

  type Name = nat

  const BASE_LENGTH := 16

  /** Offsets are 64-bit unsigned integers. */
  const WORD := 0x1_0000_0000_0000_0000

  datatype Cap = Cap(name: Name, version: nat)

  datatype Protocol = Protocol(name: Name, version: nat, length: nat)

  /** A protocol in use, with its place among the codes. */
  datatype Running = Running(proto: Protocol, offset: int)

  type Layout = map<Name, Running>

  function Word(x: int): int {
    x % WORD
  }

  lemma {:induction false} WordSum(x: int, y: int)
    ensures Word(Word(x) + y) == Word(x + y)
  {
    var q := x / WORD;
    assert x == q * WORD + Word(x);
    Shift(Word(x) + y, q);
  }

  lemma {:induction false} Shift(x: int, q: int)
    ensures Word(x + q * WORD) == Word(x)
    decreases if q < 0 then -q else q
  {
    if q > 0 {
      Shift(x, q - 1);
      assert Word(x + (q - 1) * WORD + WORD) == Word(x + (q - 1) * WORD);
    } else if q < 0 {
      Shift(x, q + 1);
      assert Word(x + (q + 1) * WORD - WORD) == Word(x + (q + 1) * WORD);
    }
  }

  // ---------------------------------------------------------------------------
  // Sorting capabilities
  // ---------------------------------------------------------------------------

  predicate Before(c: Cap, d: Cap) {
    c.name < d.name || (c.name == d.name && c.version < d.version)
  }

  ghost predicate SortedCaps(cs: seq<Cap>) {
    forall i, j :: 0 <= i < j < |cs| ==> !Before(cs[j], cs[i])
  }

  method SortCaps(cs: seq<Cap>) returns (r: seq<Cap>)
    ensures SortedCaps(r) && multiset(r) == multiset(cs)
  {
    r := [];
    var i := 0;
    while i < |cs|
      invariant 0 <= i <= |cs| && SortedCaps(r) && multiset(r) == multiset(cs[..i])
    {
      assert cs[..i + 1] == cs[..i] + [cs[i]];
      r := InsertCap(r, cs[i]);
      i := i + 1;
    }
    assert cs[..i] == cs;
  }

  method InsertCap(cs: seq<Cap>, c: Cap) returns (r: seq<Cap>)
    requires SortedCaps(cs)
    ensures SortedCaps(r) && multiset(r) == multiset(cs) + multiset{c}
  {
    var i := 0;
    while i < |cs| && !Before(c, cs[i])
      invariant 0 <= i <= |cs| && forall j :: 0 <= j < i ==> !Before(c, cs[j])
    {
      i := i + 1;
    }
    r := cs[..i] + [c] + cs[i..];
    InsertedCap(cs, i, c);
  }

  lemma {:induction false} InsertedCap(cs: seq<Cap>, i: nat, c: Cap)
    requires i <= |cs| && SortedCaps(cs) && (forall j :: 0 <= j < i ==> !Before(c, cs[j])) && (i < |cs| ==> Before(c, cs[i]))
    ensures SortedCaps(cs[..i] + [c] + cs[i..]) && multiset(cs[..i] + [c] + cs[i..]) == multiset(cs) + multiset{c}
  {
    assert cs == cs[..i] + cs[i..];
    var r := cs[..i] + [c] + cs[i..];
    forall j, k | 0 <= j < k < |r| ensures !Before(r[k], r[j]) {
      InsertedCapAt(cs, i, c, j);
      InsertedCapAt(cs, i, c, k);
    }
  }

  lemma {:induction false} InsertedCapAt(cs: seq<Cap>, i: nat, c: Cap, j: nat)
    requires i <= |cs| && j <= |cs|
    ensures (cs[..i] + [c] + cs[i..])[j] == if j < i then cs[j] else if j == i then c else cs[j - 1]
  {
  }

  // ---------------------------------------------------------------------------
  // Layouts
  // ---------------------------------------------------------------------------

  predicate Matches(p: Protocol, c: Cap) {
    p.name == c.name && p.version == c.version
  }

  /** The first protocol with the capability's name and version, or -1. */
  function Find(ps: seq<Protocol>, c: Cap): (i: int)
    ensures -1 <= i < |ps|
  {
    if ps == [] then -1
    else if Find(ps[..|ps| - 1], c) >= 0 then Find(ps[..|ps| - 1], c)
    else if Matches(ps[|ps| - 1], c) then |ps| - 1 else -1
  }

  lemma {:induction false} FindOk(ps: seq<Protocol>, c: Cap)
    ensures if Find(ps, c) < 0 then forall j :: 0 <= j < |ps| ==> !Matches(ps[j], c)
            else Matches(ps[Find(ps, c)], c) && forall j :: 0 <= j < Find(ps, c) ==> !Matches(ps[j], c)
    decreases |ps|
  {
    if ps != [] {
      FindOk(ps[..|ps| - 1], c);
    }
  }

  function Length(r: Layout, n: Name): int {
    if n in r then r[n].proto.length else 0
  }

  /** The codes taken by protocols with smaller names. */
  ghost function Below(r: Layout, n: Name): int {
    Sum(NamesBelow(r, n), m => Length(r, m))
  }

  function NamesBelow(r: Layout, n: Name): set<Name> {
    set m | m in r && m < n
  }

  /** The codes taken by all protocols. */
  ghost function Taken(r: Layout): int {
    Sum(r.Keys, m => Length(r, m))
  }

  /** The protocol in use under a name: the highest version both ends have. */
  ghost predicate Best(ps: seq<Protocol>, caps: set<Cap>, n: Name, p: Protocol) {
    && p.name == n && Cap(n, p.version) in caps
    && (var i := Find(ps, Cap(n, p.version)); i >= 0 && ps[i] == p)
    && forall c :: c in caps && c.name == n && Find(ps, c) >= 0 ==> c.version <= p.version
  }

  ghost predicate Shared(ps: seq<Protocol>, caps: set<Cap>, n: Name) {
    exists c :: c in caps && c.name == n && Find(ps, c) >= 0
  }

  ghost predicate NamesOk(ps: seq<Protocol>, caps: set<Cap>, r: Layout) {
    forall n {:trigger Shared(ps, caps, n)} :: n in r <==> Shared(ps, caps, n)
  }

  ghost predicate BestOk(ps: seq<Protocol>, caps: set<Cap>, r: Layout) {
    forall n {:trigger Best(ps, caps, n, r[n].proto)} :: n in r ==> Best(ps, caps, n, r[n].proto)
  }

  ghost predicate OffsetsOk(r: Layout) {
    forall n {:trigger Below(r, n)} :: n in r ==> r[n].offset == Word(BASE_LENGTH + Below(r, n))
  }

  /** The layout: one protocol per shared name, the highest version, placed after all smaller names. */
  ghost predicate IsLayout(ps: seq<Protocol>, caps: set<Cap>, r: Layout) {
    NamesOk(ps, caps, r) && BestOk(ps, caps, r) && OffsetsOk(r)
  }

  /** No smaller name is added or changed. */
  lemma {:induction false} BelowSame(r: Layout, r': Layout, n: Name)
    requires forall m: nat :: m < n ==> (m in r <==> m in r') && Length(r, m) == Length(r', m)
    ensures Below(r, n) == Below(r', n)
  {
    assert NamesBelow(r, n) == NamesBelow(r', n);
    SumSame(NamesBelow(r, n), m => Length(r, m), m => Length(r', m));
  }

  /** With all names up to `n`, what is below `n` and `n` itself is everything. */
  lemma {:induction false} TakenTop(r: Layout, n: Name)
    requires forall m :: m in r ==> m <= n
    ensures Taken(r) == Below(r, n) + Length(r, n)
  {
    var below := NamesBelow(r, n);
    if n in r {
      assert r.Keys - {n} == below;
      SumRemove(r.Keys, m => Length(r, m), n);
    } else {
      assert r.Keys == below;
    }
  }

  function CapSet(cs: seq<Cap>): set<Cap> {
    set c | c in cs
  }

  /** All capabilities so far are sorted before the next one. */
  ghost predicate Sofar(caps: set<Cap>, c: Cap) {
    forall d :: d in caps ==> !Before(c, d)
  }

  lemma {:induction false} SharedMore(ps: seq<Protocol>, caps: set<Cap>, c: Cap, n: Name)
    ensures Shared(ps, caps + {c}, n) <==> Shared(ps, caps, n) || (n == c.name && Find(ps, c) >= 0)
  {
    if Shared(ps, caps, n) {
      var d :| d in caps && d.name == n && Find(ps, d) >= 0;
      assert d in caps + {c};
    }
    assert c in caps + {c};
  }

  /** A capability without a protocol changes nothing. */
  lemma {:induction false} SkipCap(ps: seq<Protocol>, caps: set<Cap>, r: Layout, c: Cap)
    requires IsLayout(ps, caps, r) && Find(ps, c) < 0
    ensures IsLayout(ps, caps + {c}, r)
  {
    forall n ensures n in r <==> Shared(ps, caps + {c}, n) { SharedMore(ps, caps, c, n); }
    forall n | n in r ensures Best(ps, caps + {c}, n, r[n].proto) { assert Best(ps, caps, n, r[n].proto); }
  }

  /** Capabilities come in order, so no name in use is larger than the next one. */
  lemma {:induction false} NextName(ps: seq<Protocol>, caps: set<Cap>, r: Layout, c: Cap, n: Name)
    requires NamesOk(ps, caps, r) && Sofar(caps, c) && n in r
    ensures n <= c.name
  {
    assert Shared(ps, caps, n);
    var d :| d in caps && d.name == n && Find(ps, d) >= 0;
    assert !Before(c, d);
  }

  lemma {:induction false} PlaceNames(ps: seq<Protocol>, caps: set<Cap>, r: Layout, c: Cap, w: Running)
    requires NamesOk(ps, caps, r) && Find(ps, c) >= 0
    ensures NamesOk(ps, caps + {c}, r[c.name := w])
  {
    forall n ensures n in r[c.name := w] <==> Shared(ps, caps + {c}, n) { SharedMore(ps, caps, c, n); }
  }

  lemma {:induction false} PlaceBest(ps: seq<Protocol>, caps: set<Cap>, r: Layout, c: Cap, w: Running)
    requires BestOk(ps, caps, r) && Sofar(caps, c) && Find(ps, c) >= 0 && w.proto == ps[Find(ps, c)]
    ensures BestOk(ps, caps + {c}, r[c.name := w])
  {
    var r' := r[c.name := w];
    FindOk(ps, c);
    forall n | n in r' ensures Best(ps, caps + {c}, n, r'[n].proto) {
      if n == c.name {
        forall d | d in caps && d.name == n ensures d.version <= c.version { assert !Before(c, d); }
        assert Cap(n, w.proto.version) == c;
      } else {
        assert Best(ps, caps, n, r[n].proto);
      }
    }
  }

  lemma {:induction false} PlaceOffsets(r: Layout, n: Name, w: Running)
    requires OffsetsOk(r) && w.offset == Word(BASE_LENGTH + Below(r, n)) && forall m :: m in r ==> m <= n
    ensures OffsetsOk(r[n := w])
  {
    var r' := r[n := w];
    forall m | m in r' ensures r'[m].offset == Word(BASE_LENGTH + Below(r', m)) {
      BelowSame(r, r', m);
    }
  }

  /** The code `matchProtocols` computes: names, versions and offsets of the layout. */
  method MatchProtocols(ps: seq<Protocol>, caps: seq<Cap>) returns (result: Layout)
    ensures IsLayout(ps, CapSet(caps), result)
  {
    var sorted := SortCaps(caps);
    result := map[];
    var offset: int := BASE_LENGTH;
    var i := 0;
    while i < |sorted|
      invariant 0 <= i <= |sorted|
      invariant IsLayout(ps, CapSet(sorted[..i]), result) && offset == Word(BASE_LENGTH + Taken(result))
    {
      var c := sorted[i];
      assert sorted[..i + 1] == sorted[..i] + [c];
      assert CapSet(sorted[..i + 1]) == CapSet(sorted[..i]) + {c};
      var k := Search(ps, c);
      if k >= 0 {
        result, offset := Place(ps, CapSet(sorted[..i]), result, offset, c, k);
      } else {
        SkipCap(ps, CapSet(sorted[..i]), result, c);
      }
      i := i + 1;
    }
    SortedSet(caps, sorted);
    assert sorted[..i] == sorted;
  }

  lemma {:induction false} SortedSet(cs: seq<Cap>, r: seq<Cap>)
    requires multiset(r) == multiset(cs)
    ensures CapSet(r) == CapSet(cs)
  {
    forall c ensures c in r <==> c in cs { assert c in multiset(r) <==> c in multiset(cs); }
  }

  method Search(ps: seq<Protocol>, c: Cap) returns (k: int)
    ensures k == Find(ps, c)
  {
    k := 0;
    while k < |ps| && !Matches(ps[k], c)
      invariant 0 <= k <= |ps| && forall j :: 0 <= j < k ==> !Matches(ps[j], c)
    {
      k := k + 1;
    }
    FindOk(ps, c);
    if k == |ps| { k := -1; }
  }

  /** One matched capability: an older version under the name gives its codes back first. */
  method Place(ps: seq<Protocol>, ghost caps: set<Cap>, r: Layout, offset: int, c: Cap, k: int) returns (r': Layout, offset': int)
    requires IsLayout(ps, caps, r) && k == Find(ps, c) && k >= 0 && Sofar(caps, c)
    requires offset == Word(BASE_LENGTH + Taken(r))
    ensures IsLayout(ps, caps + {c}, r') && offset' == Word(BASE_LENGTH + Taken(r'))
  {
    offset' := offset;
    if c.name in r { offset' := Word(offset' - r[c.name].proto.length); }
    r' := r[c.name := Running(ps[k], offset')];
    offset' := Word(offset' + ps[k].length);
    forall n | n in r ensures n <= c.name { NextName(ps, caps, r, c, n); }
    PlacedOffset(r, c.name, ps[k]);
    PlaceNames(ps, caps, r, c, r'[c.name]);
    PlaceBest(ps, caps, r, c, r'[c.name]);
    PlaceOffsets(r, c.name, r'[c.name]);
  }

  /** Giving codes back and taking new ones at the end of the layout. */
  lemma {:induction false} PlacedOffset(r: Layout, n: Name, p: Protocol)
    requires forall m :: m in r ==> m <= n
    ensures Word(BASE_LENGTH + Below(r, n)) == if n in r then Word(Word(BASE_LENGTH + Taken(r)) - r[n].proto.length) else Word(BASE_LENGTH + Taken(r))
    ensures forall x :: Word(Word(BASE_LENGTH + Below(r, n)) + p.length) == Word(BASE_LENGTH + Taken(r[n := Running(p, x)]))
  {
    TakenTop(r, n);
    WordSum(BASE_LENGTH + Taken(r), 0 - Length(r, n));
    WordSum(BASE_LENGTH + Below(r, n), p.length);
    forall x ensures Taken(r[n := Running(p, x)]) == Below(r, n) + p.length {
      TakenTop(r[n := Running(p, x)], n);
      BelowSame(r, r[n := Running(p, x)], n);
    }
  }

  // ---------------------------------------------------------------------------
  // Both ends agree
  // ---------------------------------------------------------------------------

  /** What an end announces. */
  function CapsOf(ps: seq<Protocol>): set<Cap> {
    set i | 0 <= i < |ps| :: Cap(ps[i].name, ps[i].version)
  }

  /** Protocols that both ends have under one name and version have one length. */
  ghost predicate SameLengths(ps: seq<Protocol>, qs: seq<Protocol>) {
    forall i, j :: 0 <= i < |ps| && 0 <= j < |qs| && ps[i].name == qs[j].name && ps[i].version == qs[j].version ==> ps[i].length == qs[j].length
  }

  lemma {:induction false} Announced(ps: seq<Protocol>, c: Cap)
    ensures c in CapsOf(ps) <==> Find(ps, c) >= 0
  {
    FindOk(ps, c);
    if c in CapsOf(ps) {
      var i :| 0 <= i < |ps| && Cap(ps[i].name, ps[i].version) == c;
      assert Matches(ps[i], c);
    }
    if Find(ps, c) >= 0 {
      assert Cap(ps[Find(ps, c)].name, ps[Find(ps, c)].version) in CapsOf(ps);
    }
  }

  lemma {:induction false} SharedBoth(ps: seq<Protocol>, qs: seq<Protocol>, n: Name)
    requires Shared(ps, CapsOf(qs), n)
    ensures Shared(qs, CapsOf(ps), n)
  {
    var c :| c in CapsOf(qs) && c.name == n && Find(ps, c) >= 0;
    Announced(ps, c);
    Announced(qs, c);
  }

  /** The highest common version does not depend on the end that looks for it. */
  lemma {:induction false} SameBest(ps: seq<Protocol>, qs: seq<Protocol>, n: Name, p: Protocol, q: Protocol)
    requires Best(ps, CapsOf(qs), n, p) && Best(qs, CapsOf(ps), n, q) && SameLengths(ps, qs)
    ensures p == q
  {
    Announced(ps, Cap(n, p.version));
    Announced(qs, Cap(n, p.version));
    Announced(ps, Cap(n, q.version));
    Announced(qs, Cap(n, q.version));
    assert p.version == q.version;
    FindOk(ps, Cap(n, p.version));
    FindOk(qs, Cap(n, p.version));
  }

  lemma {:induction false} SameNames(ps: seq<Protocol>, qs: seq<Protocol>, r: Layout, t: Layout, n: Name)
    requires NamesOk(ps, CapsOf(qs), r) && NamesOk(qs, CapsOf(ps), t)
    ensures n in r <==> n in t
  {
    assert n in r <==> Shared(ps, CapsOf(qs), n);
    assert n in t <==> Shared(qs, CapsOf(ps), n);
    if n in r { SharedBoth(ps, qs, n); }
    if n in t { SharedBoth(qs, ps, n); }
  }

  lemma {:induction false} SameOffset(r: Layout, t: Layout, n: Name)
    requires OffsetsOk(r) && OffsetsOk(t) && r.Keys == t.Keys && (forall m :: m in r ==> r[m].proto == t[m].proto) && n in r
    ensures r[n] == t[n]
  {
    BelowSame(r, t, n);
    assert r[n].offset == t[n].offset;
  }

  /** The two ends of a connection compute the same layout. */
  lemma {:induction false} EndsAgree(ps: seq<Protocol>, qs: seq<Protocol>, r: Layout, t: Layout)
    requires IsLayout(ps, CapsOf(qs), r) && IsLayout(qs, CapsOf(ps), t) && SameLengths(ps, qs)
    ensures r == t
  {
    forall n ensures n in r <==> n in t { SameNames(ps, qs, r, t, n); }
    assert r.Keys == t.Keys;
    forall n | n in r ensures r[n].proto == t[n].proto {
      assert Best(ps, CapsOf(qs), n, r[n].proto) && Best(qs, CapsOf(ps), n, t[n].proto);
      SameBest(ps, qs, n, r[n].proto, t[n].proto);
    }
    forall n | n in r ensures r[n] == t[n] { SameOffset(r, t, n); }
  }

  // ---------------------------------------------------------------------------
  // Tiling
  // ---------------------------------------------------------------------------

  /** The code belongs to the protocol. */
  predicate Holds(w: Running, code: int) {
    w.offset <= code < Word(w.offset + w.proto.length)
  }

  /** All codes fit into a word. */
  ghost predicate Fits(r: Layout) {
    BASE_LENGTH + Taken(r) < WORD
  }

  /** Offsets without wrap-around. */
  ghost predicate Placed(r: Layout) {
    forall n {:trigger Below(r, n)} :: n in r ==> r[n].offset == BASE_LENGTH + Below(r, n)
  }

  lemma {:induction false} LengthsNonNegative(r: Layout, s: set<Name>, t: set<Name>)
    requires s <= t
    ensures 0 <= Sum(s, m => Length(r, m)) <= Sum(t, m => Length(r, m))
    decreases |t - s|
  {
    SumNonNegative(s, m => Length(r, m));
    if t <= s {
      assert s == t;
    } else {
      var x :| x in t && x !in s;
      assert x in t - s && t - (s + {x}) == (t - s) - {x};
      SumAdd(s, m => Length(r, m), x);
      LengthsNonNegative(r, s + {x}, t);
    }
  }

  /** A protocol's codes come after those of all smaller names, and end before those of all larger ones. */
  lemma {:induction false} Consecutive(r: Layout, n: Name, m: Name)
    requires n in r && m in r && n < m
    ensures Below(r, n) + Length(r, n) <= Below(r, m)
  {
    SumAdd(NamesBelow(r, n), x => Length(r, x), n);
    LengthsNonNegative(r, NamesBelow(r, n) + {n}, NamesBelow(r, m));
  }

  lemma {:induction false} Inside(r: Layout, n: Name)
    requires n in r
    ensures 0 <= Below(r, n) && Below(r, n) + Length(r, n) <= Taken(r)
  {
    SumAdd(NamesBelow(r, n), x => Length(r, x), n);
    LengthsNonNegative(r, NamesBelow(r, n) + {n}, r.Keys);
    LengthsNonNegative(r, {}, NamesBelow(r, n));
  }

  lemma {:induction false} Unwrapped(r: Layout)
    requires OffsetsOk(r) && Fits(r)
    ensures Placed(r)
  {
    forall n | n in r ensures r[n].offset == BASE_LENGTH + Below(r, n) { Inside(r, n); }
  }

  /** The protocols tile the codes after the base protocol: no two hold one code. */
  lemma {:induction false} NoOverlap(r: Layout, n: Name, m: Name, code: int)
    requires Placed(r) && Fits(r) && n in r && m in r && Holds(r[n], code) && Holds(r[m], code)
    ensures n == m
  {
    Inside(r, n);
    Inside(r, m);
    if n < m { Consecutive(r, n, m); } else if m < n { Consecutive(r, m, n); }
  }

  /** ... and every code up to the total is held. */
  lemma {:induction false} NoGap(r: Layout, code: int) returns (n: Name)
    requires Placed(r) && Fits(r) && BASE_LENGTH <= code < BASE_LENGTH + Taken(r)
    ensures n in r && Holds(r[n], code)
    decreases |r.Keys|
  {
    var top := Largest(r);
    TakenTop(r, top);
    if code >= BASE_LENGTH + Below(r, top) {
      n := top;
      Inside(r, top);
    } else {
      var rest := r - {top};
      SumRemove(r.Keys, m => Length(r, m), top);
      assert rest.Keys == r.Keys - {top};
      SumSame(rest.Keys, m => Length(r, m), m => Length(rest, m));
      LengthsNonNegative(r, {}, r.Keys);
      forall m | m in rest ensures rest[m].offset == BASE_LENGTH + Below(rest, m) { BelowSame(r, rest, m); }
      n := NoGap(rest, code);
    }
  }

  lemma {:induction false} Largest(r: Layout) returns (n: Name)
    requires r != map[]
    ensures n in r && forall m :: m in r ==> m <= n
    decreases |r.Keys|
  {
    var x :| x in r;
    var rest := r - {x};
    assert rest.Keys == r.Keys - {x};
    n := x;
    if rest != map[] {
      var m := Largest(rest);
      if x < m { n := m; }
    }
    forall m | m in r ensures m <= n { assert m == x || m in rest; }
  }

  // ---------------------------------------------------------------------------
  // Messages
  // ---------------------------------------------------------------------------

  datatype Written = Refused | OnWire(code: int)

  /** `WriteMsg`: a code outside the protocol is refused. */
  function Write(w: Running, code: nat): Written {
    if code >= w.proto.length then Refused else OnWire(Word(code + w.offset))
  }

  /** `ReadMsg` of a code that was routed to the protocol. */
  function Read(w: Running, code: int): int {
    Word(code - w.offset)
  }

  /** `getProto`: the running protocols are looked through in any order. */
  method GetProto(r: Layout, code: int) returns (found: bool, n: Name)
    ensures found ==> n in r && Holds(r[n], code)
    ensures !found ==> forall m :: m in r ==> !Holds(r[m], code)
  {
    var rest := r.Keys;
    while rest != {}
      invariant rest <= r.Keys && forall m :: m in r && m !in rest ==> !Holds(r[m], code)
      decreases |rest|
    {
      var m :| m in rest;
      if r[m].offset <= code < Word(r[m].offset + r[m].proto.length) { return true, m; }
      rest := rest - {m};
    }
    return false, 0;
  }

  ghost predicate IsRouted(r: Layout, code: int) {
    exists n :: n in r && Holds(r[n], code)
  }

  /** The codes that are routed are all those after the base protocol if and only if they fit into a word. */
  lemma {:induction false} Routed(r: Layout)
    requires OffsetsOk(r)
    ensures (forall code :: IsRouted(r, code) <==> BASE_LENGTH <= code < BASE_LENGTH + Taken(r)) <==> Fits(r)
  {
    if Fits(r) {
      forall code ensures IsRouted(r, code) <==> BASE_LENGTH <= code < BASE_LENGTH + Taken(r) { RoutedOne(r, code); }
    } else {
      assert !IsRouted(r, BASE_LENGTH + Taken(r) - 1);
    }
  }

  lemma {:induction false} RoutedOne(r: Layout, code: int)
    requires OffsetsOk(r) && Fits(r)
    ensures IsRouted(r, code) <==> BASE_LENGTH <= code < BASE_LENGTH + Taken(r)
  {
    Unwrapped(r);
    if BASE_LENGTH <= code < BASE_LENGTH + Taken(r) {
      var n := NoGap(r, code);
    }
    forall n | n in r && Holds(r[n], code) ensures BASE_LENGTH <= code < BASE_LENGTH + Taken(r) { Inside(r, n); }
  }

  /**
   A code that a protocol writes at one end is routed to the same protocol, and only to it, at
   the other end, which reads the same code.
   */
  lemma {:induction false} RoundTrip(ps: seq<Protocol>, qs: seq<Protocol>, r: Layout, t: Layout, n: Name, code: nat)
    requires IsLayout(ps, CapsOf(qs), r) && IsLayout(qs, CapsOf(ps), t) && SameLengths(ps, qs) && Fits(r)
    requires n in r && code < r[n].proto.length
    ensures Write(r[n], code).OnWire?
    ensures forall m :: m in t && Holds(t[m], Write(r[n], code).code) <==> m == n
    ensures Read(t[n], Write(r[n], code).code) == code
  {
    EndsAgree(ps, qs, r, t);
    OneEnd(r, n, code);
  }

  lemma {:induction false} OneEnd(r: Layout, n: Name, code: nat)
    requires OffsetsOk(r) && Fits(r) && n in r && code < r[n].proto.length
    ensures forall m :: m in r && Holds(r[m], Word(code + r[n].offset)) <==> m == n
    ensures Read(r[n], Word(code + r[n].offset)) == code
  {
    Unwrapped(r);
    Inside(r, n);
    assert r[n].offset == BASE_LENGTH + Below(r, n);
    var wire := code + r[n].offset;
    assert Word(wire) == wire;
    forall m | m in r && Holds(r[m], wire) ensures m == n { NoOverlap(r, m, n, wire); }
  }
}
