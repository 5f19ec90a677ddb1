/**
 The difference iterator of trie/iterator.go: walks two tries side by side and produces the
 entries of b that a does not hold, skipping subtries whose hashes agree.  However much it
 skips, the leaves it produces are exactly the key/value pairs of b that are not in a, until a
 fails to load a node; from then on they are all that is left of b.

 A node's hash is a number, 0 when it has none; the hashes of the two tries are arbitrary
 except that equal hashes at the same path mean equal subtries, and that values have none.
 */
module DifferenceIterator {
  import opened Encoding
  import opened Tree
  import opened Listing
  import opened TrieIterator

  /** The leaves among some entries that are not entries of `a`. */
  function Absent(es: seq<Entry>, a: seq<Entry>): seq<Entry> {
    if es == [] then []
    else AbsentOne(es[0], a) + Absent(es[1..], a)
  }

  function AbsentOne(e: Entry, a: seq<Entry>): seq<Entry> {
    if e.tree.Val? && e !in a then [e] else []
  }

  lemma {:induction false} AbsentConcat(es: seq<Entry>, es': seq<Entry>, a: seq<Entry>)
    ensures Absent(es + es', a) == Absent(es, a) + Absent(es', a)
  {
    if es == [] {
      assert es + es' == es';
    } else {
      AbsentConcat(es[1..], es', a);
      assert (es + es')[1..] == es[1..] + es' && (es + es')[0] == es[0];
      Assoc(AbsentOne(es[0], a), Absent(es[1..], a), Absent(es', a));
    }
  }

  lemma {:induction false} AbsentNone(es: seq<Entry>, a: seq<Entry>)
    requires forall e :: e in es && e.tree.Val? ==> e in a
    ensures Absent(es, a) == []
  {
    if es != [] { AbsentNone(es[1..], a); }
  }

  ghost predicate HashesAgree(ha: Entry -> nat, hb: Entry -> nat) {
    && (forall e: Entry, e': Entry :: e.path == e'.path && ha(e) != 0 && ha(e) == hb(e') ==> e.tree == e'.tree)
    && (forall e: Entry :: e.tree.Val? ==> ha(e) == 0 && hb(e) == 0)
  }

  /** `bytes.Compare` of two stored values. */
  function Ints(v: Bytes): Key { seq(|v|, i requires 0 <= i < |v| => v[i] as int) }

  lemma {:induction false} SameInts(v: Bytes, v': Bytes)
    requires Ints(v) == Ints(v')
    ensures v == v'
  {
    assert |v| == |Ints(v)| == |v'|;
    forall i | 0 <= i < |v| ensures v[i] == v'[i] { assert Ints(v)[i] == Ints(v')[i]; }
  }

  /** `compareNodes`: path, then leaf before inner, then hash, then value. */
  function Compare(e: Entry, h: nat, e': Entry, h': nat): (c: int)
    ensures c == -1 || c == 0 || c == 1
    ensures c == 0 ==> e.path == e'.path && h == h'
    ensures c == -1 ==> Less(e.path, e'.path) || e.path == e'.path
    ensures c == 1 ==> !Less(e.path, e'.path)
  {
    if Less(e.path, e'.path) then -1
    else if Less(e'.path, e.path) then LessIrreflexive(e.path); 1
    else
      LessTotal(e.path, e'.path);
      if HasTerm(e.path) && !HasTerm(e'.path) then -1
      else if HasTerm(e'.path) && !HasTerm(e.path) then 1
      else if h < h' then -1
      else if h > h' then 1
      else if HasTerm(e.path) && HasTerm(e'.path) && e.tree.Val? && e'.tree.Val? then
        if Less(Ints(e.tree.v), Ints(e'.tree.v)) then -1
        else if Less(Ints(e'.tree.v), Ints(e.tree.v)) then 1
        else 0
      else 0
  }

  /** Two leaves that compare equal hold the same pair; entries that compare differently are not the same leaf. */
  lemma {:induction false} CompareLeaf(e: Entry, h: nat, e': Entry, h': nat)
    requires (HasTerm(e.path) <==> e.tree.Val?) && (HasTerm(e'.path) <==> e'.tree.Val?)
    requires h == h' || !e.tree.Val? || !e'.tree.Val?
    ensures Compare(e, h, e', h') == 0 && e'.tree.Val? ==> e == e'
    ensures Compare(e, h, e', h') != 0 ==> e != e' || !e.tree.Val?
  {
    LessTotal(e.path, e'.path);
    LessIrreflexive(e.path);
    if e.tree.Val? && e'.tree.Val? {
      LessTotal(Ints(e.tree.v), Ints(e'.tree.v));
      LessIrreflexive(Ints(e.tree.v));
      if Ints(e.tree.v) == Ints(e'.tree.v) { SameInts(e.tree.v, e'.tree.v); }
    }
  }

  // ---------------------------------------------------------------------------
  // The merge, on listings
  // ---------------------------------------------------------------------------

  /** The entries of a that were passed cannot be `cur`: they lie before it, or at its path but different. */
  ghost predicate PassedOk(gone: seq<Entry>, cur: Entry) {
    forall e :: e in gone ==> Less(e.path, cur.path) || (e.path == cur.path && (e != cur || !cur.tree.Val?))
  }

  /** The entries of a that were passed lie before a path. */
  ghost predicate Behind(gone: seq<Entry>, p: Key) {
    forall e :: e in gone ==> Less(e.path, p)
  }

  lemma {:induction false} BehindIsPassed(gone: seq<Entry>, cur: Entry)
    requires Behind(gone, cur.path)
    ensures PassedOk(gone, cur)
  {
  }

  lemma {:induction false} PassedIsBehind(gone: seq<Entry>, cur: Entry, p: Key)
    requires PassedOk(gone, cur) && Less(cur.path, p)
    ensures Behind(gone, p)
  {
    forall e | e in gone ensures Less(e.path, p) {
      if e.path != cur.path { LessTrans(e.path, cur.path, p); }
    }
  }

  /** When a's next entry is beyond `cur`, or at its path but different, `cur` is not in a. */
  lemma {:induction false} YieldedIsMissing(gone: seq<Entry>, rest: seq<Entry>, cur: Entry)
    requires PassedOk(gone, cur) && Sorted(rest) && cur.tree.Val?
    requires rest != [] ==> rest[0] != cur && (Less(cur.path, rest[0].path) || rest[0].path == cur.path)
    ensures cur !in gone + rest
  {
    LessIrreflexive(cur.path);
    forall e | e in rest ensures e != cur {
      if e != rest[0] {
        assert Less(rest[0].path, e.path);
        if rest[0].path != cur.path { LessTrans(cur.path, rest[0].path, e.path); }
      }
    }
  }

  lemma {:induction false} PassOne(gone: seq<Entry>, e: Entry, cur: Entry)
    requires PassedOk(gone, cur) && (Less(e.path, cur.path) || e.path == cur.path) && (e != cur || !cur.tree.Val?)
    ensures PassedOk(gone + [e], cur)
  {
  }

  /** Stepping over an entry whose value, if it has one, a holds. */
  lemma {:induction false} AbsentCons(e: Entry, es: seq<Entry>, a: seq<Entry>)
    requires e.tree.Val? ==> e in a
    ensures Absent([e] + es, a) == Absent(es, a)
  {
    assert ([e] + es)[1..] == es;
  }

  lemma {:induction false} AbsentOver(below: seq<Entry>, es: seq<Entry>, a: seq<Entry>)
    requires forall e :: e in below ==> e in a
    ensures Absent(below + es, a) == Absent(es, a)
  {
    AbsentConcat(below, es, a);
    AbsentNone(below, a);
  }

  /** An entry under `p` lies before every later entry that is not under `p`. */
  lemma {:induction false} UnderIsBehind(p: Key, e: Key, x: Key)
    requires p <= e && !(p <= x) && Less(p, x)
    ensures Less(e, x)
  {
    LessExtended(p, x, e);
  }

  // ---------------------------------------------------------------------------
  // Where an iterator stands
  // ---------------------------------------------------------------------------

  function Here(it: NodeIterator): Entry
    reads it`stack, it`path
  {
    Entry(it.path, it.Current())
  }

  /** An iterator that is not in the middle of a seek. */
  ghost predicate Ready(it: NodeIterator)
    reads it
  {
    it.Valid() && !it.err.SeekFailed?
  }

  /** An iterator seen from outside: the entry it is on, what it has still to visit, and what follows the entry's subtree. */
  datatype Cursor = Cursor(on: bool, here: Entry, todo: seq<Entry>, after: seq<Entry>, ended: bool, failed: bool)

  ghost function Cur(it: NodeIterator): Cursor
    reads it
  {
    Cursor(it.stack != [], Here(it), it.Todo(), it.Upcoming(false), it.err.Ended?, it.err.Failed?)
  }

  /** What a cursor on an entry tells: a sorted part of a listing, with the subtree of the entry first. */
  ghost predicate CursorOk(c: Cursor) {
    if !c.on then c.here == Entry([], Empty)
    else
      && Sorted([c.here] + c.todo)
      && (HasTerm(c.here.path) <==> c.here.tree.Val?)
      && c.todo == Below(c.here.tree, c.here.path) + c.after
      && forall x :: x in c.after ==> Less(c.here.path, x.path) && !(c.here.path <= x.path)
  }

  lemma {:induction false} StandingFacts(it: NodeIterator)
    requires Ready(it) && it.Standing()
    ensures Sorted([Here(it)] + it.Todo())
    ensures HasTerm(Here(it).path) <==> Here(it).tree.Val?
    ensures it.Todo() == Below(it.Current(), it.path) + it.Upcoming(false)
  {
    var n := |it.gone| - 1;
    var front := it.gone[..n];
    assert it.gone == front + [Here(it)];
    Assoc(front, [Here(it)], it.Todo());
    PartOfListing(it.root, front, [Here(it)] + it.Todo());
    it.LeafHere();
    RestUp(it.stack, it.path);
    var f := it.stack[|it.stack| - 1];
    assert Pending(f, it.path) == Below(f.node, it.path);
  }

  /** In a sorted list an entry of the second part is not in the first. */
  lemma {:induction false} SortedParts(first: seq<Entry>, second: seq<Entry>, x: Entry)
    requires Sorted(first + second) && x in second
    ensures x !in first
  {
    var j :| 0 <= j < |second| && second[j] == x;
    forall i | 0 <= i < |first| ensures first[i] != x {
      var all := first + second;
      assert all[i] == first[i] && all[|first| + j] == x;
      LessIrreflexive(x.path);
    }
  }

  lemma {:induction false} BeyondFirst(here: Entry, rest: seq<Entry>, x: Entry)
    requires Sorted([here] + rest) && x in rest
    ensures Less(here.path, x.path)
  {
    var j :| 0 <= j < |rest| && rest[j] == x;
    var all := [here] + rest;
    assert all[0] == here && all[1 + j] == x;
  }

  /** What follows a node's subtree in a listing lies beyond the node and not under it. */
  lemma {:induction false} AfterSubtree(root: Tree, here: Entry, after: seq<Entry>, x: Entry)
    requires WF(root, false) && here in List(root, []) && x in List(root, []) && x in after
    requires Sorted([here] + (Below(here.tree, here.path) + after))
    ensures Less(here.path, x.path) && !(here.path <= x.path)
  {
    var below := Below(here.tree, here.path);
    Assoc([here], below, after);
    SortedParts([here] + below, after, x);
    BeyondFirst(here, below + after, x);
    if here.path <= x.path {
      UnderListed(root, [], false, here, x);
      assert false;
    }
  }

  lemma {:induction false} CursorFacts(it: NodeIterator)
    requires Ready(it) && it.Standing()
    ensures CursorOk(Cur(it))
  {
    StandingFacts(it);
    var here, after := Here(it), it.Upcoming(false);
    assert here in it.gone && here in List(it.root, []);
    forall x | x in after ensures Less(here.path, x.path) && !(here.path <= x.path) {
      assert x in it.Todo() && x in List(it.root, []);
      AfterSubtree(it.root, here, after, x);
    }
  }

  /** What a step chooses from. */
  function Up(c: Cursor, descend: bool): seq<Entry> {
    if descend || !c.on then c.todo else c.after
  }

  /** What a step does: it goes to the first of what it chooses from, or stops in front of it. */
  ghost predicate Goes(c: Cursor, c': Cursor, descend: bool, more: bool, loads: Key -> bool) {
    var up := Up(c, descend);
    && (more <==> up != [] && loads(up[0].path))
    && (if more then c'.on && CursorOk(c') && [c'.here] + c'.todo == up && !c'.ended && !c'.failed
        else c'.todo == up && (up == [] <==> c'.ended) && (up != [] <==> c'.failed) && (if up == [] then !c'.on else c'.on <==> c.on))
    && (!c'.on ==> CursorOk(c'))
  }

  method Go(it: NodeIterator, descend: bool, loads: Key -> bool) returns (more: bool)
    requires Ready(it)
    modifies it
    ensures Ready(it) && Goes(old(Cur(it)), Cur(it), descend, more, loads)
  {
    more := it.Advance(descend, loads);
    if more { CursorFacts(it); }
  }

  // ---------------------------------------------------------------------------
  // The merge, on cursors
  // ---------------------------------------------------------------------------

  /** What does not change: the hashes, and what a holds. */
  datatype Setup = Setup(ha: Entry -> nat, hb: Entry -> nat, held: seq<Entry>)

  /** Both iterators, what a has passed, and whether a failed to load a node: it then counts as ended. */
  datatype Scene = Scene(a: Cursor, b: Cursor, eof: bool, passed: seq<Entry>, lost: bool)

  function HashOf(h: Entry -> nat, c: Cursor): nat {
    if c.on then h(c.here) else 0
  }

  function CompareAt(k: Setup, s: Scene): int {
    Compare(s.a.here, HashOf(k.ha, s.a), s.b.here, HashOf(k.hb, s.b))
  }

  /** a stands on the first entry it has not passed, is at its end, or could not load its first node and will try again. */
  ghost predicate Placed(k: Setup, s: Scene) {
    && CursorOk(s.a)
    && (if s.a.on then !s.eof && k.held == s.passed + ([s.a.here] + s.a.todo)
        else if s.a.todo == [] then k.held == s.passed
        else !s.eof && s.passed == [] && k.held == s.a.todo)
  }

  /** Between two calls: what a has passed lies before what b comes to. */
  ghost predicate Resting(k: Setup, s: Scene) {
    HashesAgree(k.ha, k.hb) && (s.lost || (Placed(k, s) && (s.b.todo != [] ==> Behind(s.passed, s.b.todo[0].path))))
  }

  /** Within the merge: b stands on an entry, and what a has passed cannot be that entry. */
  ghost predicate Comparing(k: Setup, s: Scene) {
    HashesAgree(k.ha, k.hb) && s.b.on && CursorOk(s.b) && (s.lost || (Placed(k, s) && PassedOk(s.passed, s.b.here)))
  }

  /** b has moved on over an entry that a holds too, and a has not yet. */
  ghost predicate Lagging(k: Setup, s: Scene, descend: bool) {
    && HashesAgree(k.ha, k.hb) && s.b.on && CursorOk(s.b)
    && (s.lost || (Placed(k, s) && Behind(s.passed + Over(s.a, descend), s.b.here.path)))
  }

  /** The entry b stands on is to be produced: if it is a leaf, a does not hold it. */
  ghost predicate Yields(k: Setup, s: Scene) {
    s.b.on && (HasTerm(s.b.here.path) <==> s.b.here.tree.Val?) && (s.lost || (s.b.here.tree.Val? ==> s.b.here !in k.held))
  }

  /** The last part of a list. */
  ghost predicate Suffix(es: seq<Entry>, all: seq<Entry>) {
    |es| <= |all| && es == all[|all| - |es|..]
  }

  lemma {:induction false} SuffixTrans(a: seq<Entry>, b: seq<Entry>, c: seq<Entry>)
    requires Suffix(a, b) && Suffix(b, c)
    ensures Suffix(a, c)
  {
  }

  /** Nothing b passed so far is missing from a but what was produced. */
  ghost predicate Accounts(k: Setup, lost: bool, todo: seq<Entry>, rest: seq<Entry>) {
    lost || Absent(todo, k.held) == Absent(rest, k.held)
  }

  /** What a passes when it steps over its entry. */
  function Over(c: Cursor, descend: bool): seq<Entry> {
    if !c.on then [] else if descend then [c.here] else [c.here] + Below(c.here.tree, c.here.path)
  }

  /** The scene after a step of a. */
  function StepA(s: Scene, a: Cursor, descend: bool, more: bool): Scene {
    s.(a := a, passed := s.passed + Over(s.a, descend), lost := s.lost || (!more && !a.ended), eof := s.eof || !more)
  }

  /** An iterator that stands nowhere does not compare beyond anything. */
  lemma {:induction false} NowhereIsFirst(k: Setup, s: Scene)
    requires CursorOk(s.a) && !s.a.on
    ensures CompareAt(k, s) != 1
  {
    LessPrefix([], s.b.here.path);
  }

  lemma {:induction false} AtEndYields(k: Setup, s: Scene)
    requires Comparing(k, s) && !s.a.on && (s.lost || s.a.todo == [])
    ensures Yields(k, s)
  {
    if !s.lost && s.b.here.tree.Val? {
      YieldedIsMissing(s.passed, [], s.b.here);
      assert s.passed + [] == s.passed;
    }
  }

  lemma {:induction false} BeyondYields(k: Setup, s: Scene)
    requires Comparing(k, s) && CompareAt(k, s) == 1
    ensures Yields(k, s)
  {
    if !s.lost {
      if !s.a.on { NowhereIsFirst(k, s); }
      LessTotal(s.a.here.path, s.b.here.path);
      CompareLeaf(s.a.here, HashOf(k.ha, s.a), s.b.here, HashOf(k.hb, s.b));
      if s.b.here.tree.Val? { YieldedIsMissing(s.passed, [s.a.here] + s.a.todo, s.b.here); }
    }
  }

  /** Stepping a keeps its place, whatever it steps over. */
  lemma {:induction false} StepPlaced(k: Setup, s: Scene, a: Cursor, descend: bool, more: bool, loads: Key -> bool)
    requires Placed(k, s) && !s.eof && Goes(s.a, a, descend, more, loads) && (more || a.ended)
    ensures Placed(k, StepA(s, a, descend, more))
  {
    if s.a.on {
      if !descend { Assoc([s.a.here], Below(s.a.here.tree, s.a.here.path), s.a.after); }
      Assoc(s.passed, Over(s.a, descend), Up(s.a, descend));
      assert k.held == (s.passed + Over(s.a, descend)) + Up(s.a, descend);
      NothingLeft(s.passed + Over(s.a, descend), Up(s.a, descend));
    } else {
      assert s.passed + [] == s.passed;
    }
  }

  lemma {:induction false} NothingLeft(passed: seq<Entry>, rest: seq<Entry>)
    ensures rest == [] ==> passed + rest == passed
  {
  }

  /** b jumped past a: a's entry, which does not compare beyond b's, can be passed, as it is not b's leaf. */
  lemma {:induction false} PassA(k: Setup, s: Scene, a: Cursor, more: bool, loads: Key -> bool)
    requires Comparing(k, s) && !s.eof && CompareAt(k, s) == -1 && Goes(s.a, a, true, more, loads)
    ensures Comparing(k, StepA(s, a, true, more)) && (!more ==> Yields(k, StepA(s, a, true, more)))
  {
    var s' := StepA(s, a, true, more);
    if !s'.lost {
      StepPlaced(k, s, a, true, more, loads);
      if s.a.on {
        CompareLeaf(s.a.here, HashOf(k.ha, s.a), s.b.here, HashOf(k.hb, s.b));
        PassOne(s.passed, s.a.here, s.b.here);
      } else {
        assert s.passed + [] == s.passed;
      }
    }
    if !more && !s'.lost { AtEndYields(k, s'); }
  }

  /** Entries that compare equal hold nothing that is missing from a: neither the entry nor, with a hash, its subtree. */
  lemma {:induction false} EqualIsHeld(k: Setup, s: Scene)
    requires Comparing(k, s) && !s.lost && CompareAt(k, s) == 0
    ensures s.b.here.tree.Val? ==> s.b.here in k.held
    ensures HashOf(k.ha, s.a) != 0 ==> s.a.on && s.a.here == s.b.here
    ensures HashOf(k.ha, s.a) != 0 ==> forall e :: e in Below(s.b.here.tree, s.b.here.path) ==> e in k.held
  {
    if s.a.on {
      CompareLeaf(s.a.here, HashOf(k.ha, s.a), s.b.here, HashOf(k.hb, s.b));
      assert s.a.here in [s.a.here] + s.a.todo;
    }
  }

  lemma {:induction false} SkippedIsHeld(k: Setup, s: Scene, descend: bool)
    requires Comparing(k, s) && !s.lost && CompareAt(k, s) == 0 && (descend <==> HashOf(k.ha, s.a) == 0)
    ensures Absent([s.b.here] + s.b.todo, k.held) == Absent(Up(s.b, descend), k.held)
  {
    EqualIsHeld(k, s);
    AbsentCons(s.b.here, s.b.todo, k.held);
    if !descend { AbsentOver(Below(s.b.here.tree, s.b.here.path), s.b.after, k.held); }
  }

  /** Everything a passes together with b lies before what b comes to next. */
  lemma {:induction false} BehindNext(k: Setup, s: Scene, descend: bool, x: Entry)
    requires Comparing(k, s) && !s.lost && s.a.here.path == s.b.here.path && (!descend ==> s.a.on) && x in Up(s.b, descend)
    ensures Behind(s.passed + Over(s.a, descend), x.path) && Behind(s.passed, x.path)
  {
    if descend { BeyondFirst(s.b.here, s.b.todo, x); }
    PassedIsBehind(s.passed, s.b.here, x.path);
    OverIsBehind(s.a, descend, x);
  }

  /** What a step leaves behind lies before everything beyond the subtree it leaves. */
  lemma {:induction false} OverIsBehind(c: Cursor, descend: bool, x: Entry)
    requires Less(c.here.path, x.path) && (descend || !(c.here.path <= x.path))
    ensures Behind(Over(c, descend), x.path)
  {
    if !descend && c.on { ListUnder(c.here.tree, c.here.path); }
    forall e | e in Over(c, descend) ensures Less(e.path, x.path) {
      if e != c.here { UnderIsBehind(c.here.path, e.path, x.path); }
    }
  }

  /** a and b are identical here: b steps on, over the whole subtree if the nodes have hashes. */
  lemma {:induction false} SkipB(k: Setup, s: Scene, b: Cursor, descend: bool, more: bool, loads: Key -> bool)
    requires Comparing(k, s) && CompareAt(k, s) == 0 && (descend <==> HashOf(k.ha, s.a) == 0) && Goes(s.b, b, descend, more, loads)
    ensures if more then Lagging(k, s.(b := b), descend) && |b.todo| < |s.b.todo| else Resting(k, s.(b := b)) && |b.todo| <= |s.b.todo|
    ensures Accounts(k, s.lost, [s.b.here] + s.b.todo, if more then [b.here] + b.todo else b.todo)
    ensures Suffix(if more then [b.here] + b.todo else b.todo, [s.b.here] + s.b.todo)
  {
    var up := Up(s.b, descend);
    assert |up| <= |s.b.todo|;
    if !s.lost {
      SkippedIsHeld(k, s, descend);
      EqualIsHeld(k, s);
      if up != [] { BehindNext(k, s, descend, up[0]); }
    }
  }

  /** a follows. */
  lemma {:induction false} Follow(k: Setup, s: Scene, a: Cursor, descend: bool, more: bool, loads: Key -> bool)
    requires Lagging(k, s, descend) && !s.eof && Goes(s.a, a, descend, more, loads)
    ensures Comparing(k, StepA(s, a, descend, more)) && (!more ==> Yields(k, StepA(s, a, descend, more)))
  {
    var s' := StepA(s, a, descend, more);
    if !s'.lost {
      StepPlaced(k, s, a, descend, more, loads);
      BehindIsPassed(s'.passed, s'.b.here);
      if !more { AtEndYields(k, s'); }
    }
  }

  lemma {:induction false} Produced(k: Setup, s: Scene)
    requires Comparing(k, s)
    ensures Resting(k, s)
  {
    if !s.lost && s.b.todo != [] {
      var all := [s.b.here] + s.b.todo;
      assert all[0] == s.b.here && all[1] == s.b.todo[0];
      PassedIsBehind(s.passed, s.b.here, s.b.todo[0].path);
    }
  }

  /** b steps at the start of a call. */
  lemma {:induction false} StepB(k: Setup, s: Scene, b: Cursor, more: bool, loads: Key -> bool)
    requires Resting(k, s) && Goes(s.b, b, true, more, loads)
    ensures if more then Comparing(k, s.(b := b)) && |b.todo| < |s.b.todo| else Resting(k, s.(b := b)) && b.todo == s.b.todo
    ensures s.b.todo == if more then [b.here] + b.todo else b.todo
    ensures more && s.eof ==> Yields(k, s.(b := b))
  {
    if more && !s.lost {
      assert s.b.todo[0] == b.here;
      BehindIsPassed(s.passed, b.here);
    }
    if more && s.eof && !s.lost { AtEndYields(k, s.(b := b)); }
  }

  // ---------------------------------------------------------------------------
  // What is passed between the methods
  // ---------------------------------------------------------------------------

  /** A mention of a scene, which opens what is said about it below. */
  predicate Peer(s: Scene, n: int) {
    true
  }

  /** `Resting`, opened only where the scene is looked at; likewise the next two. */
  ghost predicate RestingAt(k: Setup, s: Scene) {
    forall n {:trigger Peer(s, n)} :: Peer(s, n) ==> Resting(k, s)
  }

  ghost predicate ComparingAt(k: Setup, s: Scene) {
    forall n {:trigger Peer(s, n)} :: Peer(s, n) ==> Comparing(k, s)
  }

  ghost predicate LaggingAt(k: Setup, s: Scene, descend: bool) {
    forall n {:trigger Peer(s, n)} :: Peer(s, n) ==> Lagging(k, s, descend)
  }

  /** `Goes`, opened only where a scene with the old cursor is looked at. */
  predicate Watch(c: Cursor, n: int) {
    true
  }

  ghost predicate Went(c: Cursor, c': Cursor, descend: bool, more: bool, loads: Key -> bool) {
    forall n {:trigger Watch(c, n)} :: Watch(c, n) ==> Goes(c, c', descend, more, loads)
  }

  lemma {:induction false} OpenWent(c: Cursor, c': Cursor, descend: bool, more: bool, loads: Key -> bool)
    requires Went(c, c', descend, more, loads)
    ensures Goes(c, c', descend, more, loads)
  {
    assert Watch(c, 0);
  }

  /** The iterator stands where the cursor says; opened only where the cursor is watched. */
  ghost predicate Tracks(it: NodeIterator, c: Cursor)
    reads it
  {
    forall n {:trigger Watch(c, n)} :: Watch(c, n) ==> Ready(it) && c == Cur(it)
  }

  lemma {:induction false} TracksHere(it: NodeIterator, c: Cursor)
    requires Tracks(it, c)
    ensures Ready(it) && it.Todo() == c.todo && Here(it) == c.here && (it.stack != [] <==> c.on)
    ensures (it.err.Ended? <==> c.ended) && (it.err.Failed? <==> c.failed)
  {
    assert Watch(c, 0);
  }

  method Move(it: NodeIterator, descend: bool, loads: Key -> bool, ghost c: Cursor) returns (more: bool, ghost c': Cursor)
    requires Tracks(it, c)
    modifies it
    ensures Tracks(it, c') && Went(c, c', descend, more, loads)
  {
    assert Watch(c, 0);
    more := Go(it, descend, loads);
    c' := Cur(it);
  }

  lemma {:induction false} Begun(k: Setup, s: Scene, more: bool, loads: Key -> bool, c: Cursor)
    requires HashesAgree(k.ha, k.hb) && k.held == c.todo && Went(c, s.a, true, more, loads)
    requires !s.eof && s.passed == [] && (s.lost <==> s.a.failed && s.a.on)
    ensures RestingAt(k, s) && (s.lost ==> c.on && exists p :: !loads(p)) && (NoneLoads(loads) && !c.on ==> !s.a.on && s.a.todo == k.held)
  {
    OpenWent(c, s.a, true, more, loads);
    if more { assert k.held == [] + ([s.a.here] + s.a.todo); }
  }

  class Difference {
    const a: NodeIterator
    const b: NodeIterator
    const ha: Entry -> nat
    const hb: Entry -> nat
    var eof: bool

    /**
     Where the iterators stand, what a holds, the part of it that a has passed, and whether a failed to
     load a node and is not tried again.
     */
    ghost var ca: Cursor
    ghost var cb: Cursor
    ghost const held: seq<Entry>
    ghost var passed: seq<Entry>
    ghost var lost: bool

    ghost function Set(): Setup {
      Setup(ha, hb, held)
    }

    ghost function Sc(): Scene
      reads this
    {
      Scene(ca, cb, eof, passed, lost)
    }

    ghost predicate Both()
      reads this, a, b
    {
      a != b && Tracks(a, ca) && Tracks(b, cb)
    }

    ghost predicate Valid()
      reads this, a, b
    {
      Both() && RestingAt(Set(), Sc())
    }

    /** `NewDifferenceIterator`. */
    constructor (a: NodeIterator, b: NodeIterator, ha: Entry -> nat, hb: Entry -> nat, loads: Key -> bool)
      requires a != b && Ready(a) && Ready(b) && HashesAgree(ha, hb)
      modifies a
      ensures Valid() && this.a == a && this.b == b && held == old(a.Todo())
      ensures cb.todo == old(b.Todo()) && !eof && (lost ==> old(a.stack) != [] && exists p :: !loads(p))
      ensures NoneLoads(loads) && old(a.stack) == [] ==> !ca.on && ca.todo == held
    {
      this.a, this.b, this.ha, this.hb := a, b, ha, hb;
      eof, passed, lost := false, [], false;
      held, ca, cb := a.Todo(), Cur(a), Cur(b);
      new;
      ghost var c := ca;
      var more;
      more, ca := Move(a, true, loads, c);
      lost := ca.failed && ca.on;
      Begun(Set(), Sc(), more, loads, c);
    }

    function HashA(): nat
      reads a`stack, a`path
    {
      if a.stack == [] then 0 else ha(Here(a))
    }

    function HashB(): nat
      reads b`stack, b`path
    {
      if b.stack == [] then 0 else hb(Here(b))
    }

    /** a moves on, and what it leaves behind is recorded as passed. */
    method MoveA(descend: bool, loads: Key -> bool) returns (more: bool)
      requires Both()
      modifies this`eof, this`passed, this`lost, this`ca, a
      ensures Both() && Went(old(ca), ca, descend, more, loads) && Sc() == StepA(old(Sc()), ca, descend, more)
    {
      passed := passed + Over(ca, descend);
      more, ca := Move(a, descend, loads, ca);
      if !more { eof := true; }
      lost := lost || (!more && !ca.ended);
    }

    /** `compareNodes` on where the iterators stand. */
    method CompareHere() returns (c: int)
      requires Both()
      ensures c == CompareAt(Set(), Sc())
    {
      TracksHere(a, ca);
      TracksHere(b, cb);
      c := Compare(Here(a), HashA(), Here(b), HashB());
    }

    /** One turn of the merge: the entry b stands on is produced unless there is more to compare, or b stops. */
    method MergeOne(la: Key -> bool, lb: Key -> bool) returns (more: bool, stop: bool)
      requires Both() && ComparingAt(Set(), Sc()) && !eof
      modifies this`eof, this`passed, this`lost, this`ca, this`cb, a, b
      ensures Both() && Turned(Set(), old(Sc()), Sc(), more, stop, la, lb)
    {
      var c := CompareHere();
      more, stop := false, false;
      if c == 1 {
        TurnBeyond(Set(), Sc(), la, lb);
      } else if c == -1 {
        ghost var s := Sc();
        more := MoveA(true, la);
        TurnPass(Set(), s, ca, more, la, lb);
      } else {
        more, stop := SkipEqual(la, lb);
      }
    }

    /** a and b are identical here: skip the whole subtree if the nodes have hashes. */
    method SkipEqual(la: Key -> bool, lb: Key -> bool) returns (more: bool, stop: bool)
      requires Both() && ComparingAt(Set(), Sc()) && !eof && CompareAt(Set(), Sc()) == 0
      modifies this`eof, this`passed, this`lost, this`ca, this`cb, a, b
      ensures Both() && Turned(Set(), old(Sc()), Sc(), more, stop, la, lb)
    {
      ghost var s := Sc();
      TracksHere(a, ca);
      var descend, moreB := HashA() == 0, false;
      moreB, cb := Move(b, descend, lb, cb);
      TurnSkip(Set(), s, cb, descend, moreB, la, lb);
      more, stop := false, !moreB;
      if moreB {
        more := MoveA(descend, la);
        TurnFollow(Set(), s, cb, ca, descend, more, la, lb);
      }
    }

    /**
     `Next`: steps b to the next entry that a does not have.  Of the leaves of b passed over, all
     are in a; the leaf produced, if it is one, is not.  This holds until a fails to load a node.
     */
    method Next(la: Key -> bool, lb: Key -> bool) returns (ok: bool)
      requires Valid()
      modifies this`eof, this`passed, this`lost, this`ca, this`cb, a, b
      ensures Valid() && Stepped(Set(), old(Sc()), Sc(), ok, la, lb)
    {
      ghost var s := Sc();
      ok, cb := Move(b, true, lb, cb);
      StepStart(Set(), s, cb, ok, la, lb);
      if !ok || eof { return; }
      ok := Merge(s, la, lb);
    }

    /** The loop of `Next`. */
    method Merge(ghost s: Scene, la: Key -> bool, lb: Key -> bool) returns (ok: bool)
      requires Both() && ComparingAt(Set(), Sc()) && !eof && SoFar(Set(), s, Sc(), la)
      modifies this`eof, this`passed, this`lost, this`ca, this`cb, a, b
      ensures Valid() && Stepped(Set(), s, Sc(), ok, la, lb)
    {
      while true
        invariant Both() && ComparingAt(Set(), Sc()) && !eof && SoFar(Set(), s, Sc(), la)
        decreases |cb.todo|, |ca.todo|
      {
        ghost var s0 := Sc();
        var more, stop := MergeOne(la, lb);
        TurnNext(Set(), s, s0, Sc(), more, stop, la, lb);
        if stop { return false; }
        if !more { return true; }
      }
    }

    /** `Error`: that of a if it has one, else that of b. */
    method Error() returns (failed: bool)
      requires Both()
      ensures failed <==> a.Error() || b.Error()
      ensures failed <==> ca.failed || cb.failed
    {
      TracksHere(a, ca);
      TracksHere(b, cb);
      failed := if a.Error() then true else b.Error();
    }

    /**
     Takes entries until there are none, and keeps the pairs.  Until a fails to load a node these are
     the missing pairs (`early`); from the entry at which it fails on (`rest`), all pairs of b.
     */
    method Drain(la: Key -> bool, lb: Key -> bool) returns (pairs: seq<(Key, Bytes)>, ghost early: seq<(Key, Bytes)>, ghost rest: seq<Entry>)
      requires Valid()
      modifies this`eof, this`passed, this`lost, this`ca, this`cb, a, b
      ensures Valid() && Halts(cb, lb) && (old(lost) || Emptied(Set(), old(Sc()), Sc(), pairs, early, rest, la))
    {
      pairs, early, rest := [], [], cb.todo;
      ghost var s0 := Sc();
      DrainStart(Set(), s0, la);
      while true
        invariant Valid() && (s0.lost || Emptied(Set(), s0, Sc(), pairs, early, rest, la))
        decreases |cb.todo|
      {
        ghost var s := Sc();
        var ok := Next(la, lb);
        StepEnds(Set(), s, Sc(), ok, la, lb);
        if !s0.lost { early, rest := DrainOne(Set(), s0, s, Sc(), ok, la, lb, pairs, early, rest); }
        if !ok { return; }
        TracksHere(b, cb);
        if b.Leaf() { pairs := pairs + [(b.path, b.Current().v)]; }
      }
    }
  }

  /** A cursor that cannot go on: it is at the end, or in front of a node that cannot be loaded. */
  ghost predicate Halts(c: Cursor, loads: Key -> bool) {
    if c.ended then c.todo == [] else c.failed && c.todo != [] && !loads(c.todo[0].path)
  }

  /** What a scene leaves of b: also the entry b stands on, unless b stopped. */
  function Left(s: Scene, stop: bool): seq<Entry> {
    if stop then s.b.todo else [s.b.here] + s.b.todo
  }

  /** When a fails to load a node it counts as ended from then on. */
  ghost predicate Loses(s: Scene, s': Scene, la: Key -> bool) {
    && (s.lost ==> s'.lost) && (s'.lost && !s.lost ==> s'.eof && s'.a.failed && exists p :: !la(p))
    && (NoneLoads(la) && !s.a.on && s.a.todo != [] ==> !s'.a.on && s'.a.todo == s.a.todo)
  }

  ghost predicate NoneLoads(la: Key -> bool) {
    forall p :: !la(p)
  }

  /** What one turn of the merge does to a scene. */
  ghost predicate Turn(k: Setup, s: Scene, s': Scene, more: bool, stop: bool, la: Key -> bool, lb: Key -> bool) {
    && |s'.b.todo| <= |s.b.todo| && Loses(s, s', la) && (stop ==> s'.lost == s.lost && s'.eof == s.eof)
    && Accounts(k, s.lost, Left(s, false), Left(s', stop)) && Suffix(Left(s', stop), Left(s, false))
    && (if stop then Resting(k, s') && Halts(s'.b, lb)
        else Comparing(k, s') && if more then !s'.eof && (|s'.b.todo| < |s.b.todo| || |s'.a.todo| < |s.a.todo|)
                                 else Yields(k, s') && (s'.eof || CompareAt(k, s') == 1))
  }

  ghost predicate Turned(k: Setup, s: Scene, s': Scene, more: bool, stop: bool, la: Key -> bool, lb: Key -> bool) {
    forall n {:trigger Peer(s, n)} :: Peer(s, n) ==> Turn(k, s, s', more, stop, la, lb)
  }

  /**
   What one call does to a scene.  Of the leaves passed over all are held by a, also in the call in
   which a fails to load a node; after that call, and after the end of a, nothing is passed over.
   */
  ghost predicate Step(k: Setup, s: Scene, s': Scene, ok: bool, la: Key -> bool, lb: Key -> bool) {
    && Accounts(k, s.lost, s.b.todo, Left(s', !ok)) && Suffix(Left(s', !ok), s.b.todo)
    && (if ok then Yields(k, s') && |s'.b.todo| < |s.b.todo| && (s'.eof || CompareAt(k, s') == 1) else Halts(s'.b, lb))
    && Loses(s, s', la) && (s'.lost && !s.lost ==> ok)
    && (s.eof ==> s'.eof && s'.a == s.a && s'.lost == s.lost && Left(s', !ok) == s.b.todo)
    && (NoneLoads(la) && !s.lost && !s.a.on && s.a.todo != [] && ok ==> s'.lost)
  }

  ghost predicate Stepped(k: Setup, s: Scene, s': Scene, ok: bool, la: Key -> bool, lb: Key -> bool) {
    forall n {:trigger Peer(s, n)} :: Peer(s, n) ==> Step(k, s, s', ok, la, lb)
  }

  /** A call under way. */
  ghost predicate UnderWay(k: Setup, s: Scene, s': Scene, la: Key -> bool) {
    && Accounts(k, s.lost, s.b.todo, Left(s', false)) && Suffix(Left(s', false), s.b.todo) && |s'.b.todo| < |s.b.todo|
    && !s.eof && !s'.eof && s'.lost == s.lost && Loses(s, s', la)
  }

  ghost predicate SoFar(k: Setup, s: Scene, s': Scene, la: Key -> bool) {
    forall n {:trigger Peer(s, n)} :: Peer(s, n) ==> UnderWay(k, s, s', la)
  }

  lemma {:induction false} TurnBeyond(k: Setup, s: Scene, la: Key -> bool, lb: Key -> bool)
    requires ComparingAt(k, s) && CompareAt(k, s) == 1
    ensures Turned(k, s, s, false, false, la, lb)
  {
    assert Peer(s, 0);
    BeyondYields(k, s);
  }

  lemma {:induction false} TurnPass(k: Setup, s: Scene, a: Cursor, more: bool, la: Key -> bool, lb: Key -> bool)
    requires ComparingAt(k, s) && !s.eof && CompareAt(k, s) == -1 && Went(s.a, a, true, more, la)
    ensures Turned(k, s, StepA(s, a, true, more), more, false, la, lb)
  {
    assert Peer(s, 0);
    OpenWent(s.a, a, true, more, la);
    PassA(k, s, a, more, la);
  }

  lemma {:induction false} TurnSkip(k: Setup, s: Scene, b: Cursor, descend: bool, moreB: bool, la: Key -> bool, lb: Key -> bool)
    requires ComparingAt(k, s) && CompareAt(k, s) == 0 && (descend <==> HashOf(k.ha, s.a) == 0) && Went(s.b, b, descend, moreB, lb)
    ensures if moreB then LaggingAt(k, s.(b := b), descend) else Turned(k, s, s.(b := b), false, true, la, lb)
  {
    assert Peer(s, 0);
    OpenWent(s.b, b, descend, moreB, lb);
    SkipB(k, s, b, descend, moreB, lb);
  }

  lemma {:induction false} TurnFollow(k: Setup, s: Scene, b: Cursor, a: Cursor, descend: bool, more: bool, la: Key -> bool, lb: Key -> bool)
    requires ComparingAt(k, s) && !s.eof && CompareAt(k, s) == 0 && (descend <==> HashOf(k.ha, s.a) == 0)
    requires Went(s.b, b, descend, true, lb) && Went(s.a, a, descend, more, la)
    ensures Turned(k, s, StepA(s.(b := b), a, descend, more), more, false, la, lb)
  {
    assert Peer(s, 0);
    OpenWent(s.b, b, descend, true, lb);
    OpenWent(s.a, a, descend, more, la);
    SkipB(k, s, b, descend, true, lb);
    Follow(k, s.(b := b), a, descend, more, la);
  }

  lemma {:induction false} StepStart(k: Setup, s: Scene, b: Cursor, ok: bool, la: Key -> bool, lb: Key -> bool)
    requires RestingAt(k, s) && Went(s.b, b, true, ok, lb)
    ensures !ok || s.eof ==> RestingAt(k, s.(b := b)) && Stepped(k, s, s.(b := b), ok, la, lb)
    ensures ok && !s.eof ==> ComparingAt(k, s.(b := b)) && SoFar(k, s, s.(b := b), la)
  {
    assert Peer(s, 0);
    OpenWent(s.b, b, true, ok, lb);
    StepB(k, s, b, ok, lb);
    if ok { Produced(k, s.(b := b)); }
  }

  lemma {:induction false} TurnNext(k: Setup, s: Scene, s0: Scene, s': Scene, more: bool, stop: bool, la: Key -> bool, lb: Key -> bool)
    requires SoFar(k, s, s0, la) && Turned(k, s0, s', more, stop, la, lb)
    ensures if stop || !more then RestingAt(k, s') && Stepped(k, s, s', !stop, la, lb)
            else ComparingAt(k, s') && !s'.eof && SoFar(k, s, s', la) && |s'.b.todo| <= |s0.b.todo| &&
                 (|s'.b.todo| < |s0.b.todo| || |s'.a.todo| < |s0.a.todo|)
  {
    assert Peer(s, 0) && Peer(s0, 0);
    SuffixTrans(Left(s', stop), Left(s0, false), s.b.todo);
    if !stop && !more { Produced(k, s'); }
    if stop || !more { TurnEnds(k, s, s0, s', stop, la, lb); }
  }

  lemma {:induction false} TurnEnds(k: Setup, s: Scene, s0: Scene, s': Scene, stop: bool, la: Key -> bool, lb: Key -> bool)
    requires UnderWay(k, s, s0, la) && Turn(k, s0, s', false, stop, la, lb) && Suffix(Left(s', stop), s.b.todo)
    ensures Stepped(k, s, s', !stop, la, lb)
  {
    if !stop { BlindIsLost(k, s'); }
  }

  /** A call that produces something while a stands nowhere and is not at its end lost a. */
  lemma {:induction false} BlindIsLost(k: Setup, s: Scene)
    requires Comparing(k, s) && (s.eof || CompareAt(k, s) == 1)
    ensures !s.a.on && s.a.todo != [] ==> s.lost
  {
    if !s.lost && !s.a.on { NowhereIsFirst(k, s); }
  }

  lemma {:induction false} StepEnds(k: Setup, s: Scene, s': Scene, ok: bool, la: Key -> bool, lb: Key -> bool)
    requires Stepped(k, s, s', ok, la, lb)
    ensures if ok then |s'.b.todo| < |s.b.todo| && (HasTerm(s'.b.here.path) <==> s'.b.here.tree.Val?) else Halts(s'.b, lb)
  {
    assert Peer(s, 0);
  }

  /**
   Draining from the scene `s`: `early` and the missing pairs of `rest` are all that was missing, and
   all pairs of `rest` follow if a failed to load a node.
   */
  ghost predicate Draining(k: Setup, s: Scene, s': Scene, pairs: seq<(Key, Bytes)>, early: seq<(Key, Bytes)>, rest: seq<Entry>, la: Key -> bool) {
    && early + Pairs(Absent(rest, k.held)) == Pairs(Absent(s.b.todo, k.held)) && Suffix(rest, s.b.todo)
    && (if s'.lost then pairs + Pairs(s'.b.todo) == early + Pairs(rest) && s'.eof && s'.a.failed && exists p :: !la(p)
        else pairs == early && rest == s'.b.todo)
    && (NoneLoads(la) && !s.a.on && s.a.todo != [] ==>
          early == [] && (s'.lost || (!s'.a.on && s'.a.todo != [])) && (pairs != [] ==> s'.lost))
  }

  ghost predicate Emptied(k: Setup, s: Scene, s': Scene, pairs: seq<(Key, Bytes)>, early: seq<(Key, Bytes)>, rest: seq<Entry>, la: Key -> bool) {
    forall n {:trigger Peer(s, n)} :: Peer(s, n) ==> Draining(k, s, s', pairs, early, rest, la)
  }

  lemma {:induction false} DrainStart(k: Setup, s: Scene, la: Key -> bool)
    ensures s.lost || Emptied(k, s, s, [], [], s.b.todo, la)
  {
  }

  /** The pairs after one more call. */
  ghost function Taken(s: Scene, ok: bool, pairs: seq<(Key, Bytes)>): seq<(Key, Bytes)> {
    if ok && s.b.here.tree.Val? then pairs + [(s.b.here.path, s.b.here.tree.v)] else pairs
  }

  lemma {:induction false} DrainOne(k: Setup, s0: Scene, s: Scene, s': Scene, ok: bool, la: Key -> bool, lb: Key -> bool, pairs: seq<(Key, Bytes)>, early: seq<(Key, Bytes)>, rest: seq<Entry>)
    returns (early': seq<(Key, Bytes)>, rest': seq<Entry>)
    requires Emptied(k, s0, s, pairs, early, rest, la) && Stepped(k, s, s', ok, la, lb)
    ensures Emptied(k, s0, s', Taken(s', ok, pairs), early', rest', la)
  {
    assert Peer(s0, 0) && Peer(s, 0);
    if s.lost {
      early', rest' := early, rest;
      PairsTaken(s', ok, pairs);
    } else if s'.lost {
      early', rest' := early, Left(s', !ok);
      SuffixTrans(rest', s.b.todo, s0.b.todo);
      PairsTaken(s', ok, pairs);
    } else {
      early', rest' := Taken(s', ok, pairs), s'.b.todo;
      SuffixTrans(Left(s', !ok), s.b.todo, s0.b.todo);
      assert Suffix(rest', Left(s', !ok));
      SuffixTrans(rest', Left(s', !ok), s0.b.todo);
      if ok { Gives(s.b.todo, s'.b.here, s'.b.todo, k.held, pairs); }
    }
  }

  lemma {:induction false} PairsTaken(s: Scene, ok: bool, pairs: seq<(Key, Bytes)>)
    ensures pairs + Pairs(Left(s, !ok)) == Taken(s, ok, pairs) + Pairs(s.b.todo)
  {
    if ok {
      assert ([s.b.here] + s.b.todo)[1..] == s.b.todo;
      if s.b.here.tree.Val? { Assoc(pairs, [(s.b.here.path, s.b.here.tree.v)], Pairs(s.b.todo)); }
      else { assert [] + Pairs(s.b.todo) == Pairs(s.b.todo); }
    }
  }

  /** One produced entry, as pairs. */
  lemma {:induction false} Gives(todo: seq<Entry>, here: Entry, rest: seq<Entry>, held: seq<Entry>, pairs: seq<(Key, Bytes)>)
    requires Absent(todo, held) == Absent([here] + rest, held) && (here.tree.Val? ==> here !in held)
    ensures pairs + Pairs(Absent(todo, held)) ==
            (if here.tree.Val? then pairs + [(here.path, here.tree.v)] else pairs) + Pairs(Absent(rest, held))
  {
    assert ([here] + rest)[1..] == rest;
    var es := Absent(rest, held);
    if here.tree.Val? {
      assert ([here] + es)[1..] == es;
      Assoc(pairs, [(here.path, here.tree.v)], Pairs(es));
    } else {
      assert [] + es == es;
    }
  }

  /** Exactly the pairs of `b` that `a` does not hold, each once, in rising order. */
  ghost predicate AllMissing(pairs: seq<(Key, Bytes)>, a: Tree, b: Tree) {
    Rising(pairs) && forall k, v :: (k, v) in pairs <==> Stored(b, k, v) && !Stored(a, k, v)
  }

  /** `a` holds none of the leaves. */
  ghost predicate NoneHeld(rest: seq<Entry>, a: Tree) {
    forall k, v {:trigger Stored(a, k, v)} :: Entry(k, Val(v)) in rest ==> !Stored(a, k, v)
  }

  lemma {:induction false} AbsentAll(es: seq<Entry>, a: seq<Entry>)
    requires forall e :: e in es && e.tree.Val? ==> e !in a
    ensures Pairs(Absent(es, a)) == Pairs(es)
  {
    if es != [] {
      AbsentAll(es[1..], a);
      var rest := Absent(es[1..], a);
      assert es[0] in es;
      if es[0].tree.Val? { assert ([es[0]] + rest)[1..] == rest; } else { assert [] + rest == rest; }
    }
  }

  /** If `early` and the missing pairs of `rest` are what is missing, then `early` and all pairs of `rest` are that exactly if a holds no leaf of `rest`. */
  lemma {:induction false} MissingExactly(a: Tree, b: Tree, early: seq<(Key, Bytes)>, rest: seq<Entry>)
    requires WF(a, false) && WF(b, false) && early + Pairs(Absent(rest, List(a, []))) == Pairs(Absent(List(b, []), List(a, [])))
    ensures AllMissing(early + Pairs(rest), a, b) <==> NoneHeld(rest, a)
  {
    AbsentIsMissing(a, b);
    if NoneHeld(rest, a) {
      forall e | e in rest && e.tree.Val? ensures e !in List(a, []) {
        ListedIsStored(a, e.path, e.tree.v);
        assert !Stored(a, e.path, e.tree.v);
      }
      AbsentAll(rest, List(a, []));
    }
    if AllMissing(early + Pairs(rest), a, b) {
      forall k, v | Entry(k, Val(v)) in rest ensures !Stored(a, k, v) {
        PairsIn(rest, k, v);
        assert (k, v) in early + Pairs(rest);
      }
    }
  }

  /**
   Two fresh iterators, and the difference iterator drained.  When b is at its end, the pairs are
   exactly those of b's trie that a's trie does not hold, if and only if a holds none of `rest`: what
   was left of b when a failed to load a node, and nothing if it did not.  Without an error at the
   end the result is right.
   */
  method DifferenceOf(a: NodeIterator, b: NodeIterator, ha: Entry -> nat, hb: Entry -> nat, la: Key -> bool, lb: Key -> bool)
    returns (pairs: seq<(Key, Bytes)>, failed: bool, ghost rest: seq<Entry>, ghost lost: bool)
    requires a != b && HashesAgree(ha, hb) && Ready(a) && Ready(b)
    requires a.stack == [] && !a.err.Ended? && b.stack == [] && !b.err.Ended?
    modifies a, b
    ensures (lost ==> exists p :: !la(p)) && (b.err.Ended? && !lost ==> rest == []) && Suffix(rest, List(b.root, []))
    ensures b.Valid() && ((forall p :: lb(p)) ==> b.err.Ended?) && (failed <==> a.Error() || b.Error())
    ensures b.err.Ended? ==> (AllMissing(pairs, a.root, b.root) <==> NoneHeld(rest, a.root))
    ensures !failed ==> b.err.Ended? && !lost && AllMissing(pairs, a.root, b.root)
    ensures NoneLoads(la) && b.err.Ended? ==>
              pairs == Pairs(rest) && Pairs(Absent(rest, List(a.root, []))) == Pairs(Absent(List(b.root, []), List(a.root, [])))
  {
    var d := new Difference(a, b, ha, hb, la);
    ghost var k, s := d.Set(), d.Sc();
    ghost var early;
    pairs, early, rest := d.Drain(la, lb);
    failed := d.Error();
    lost := d.lost;
    TracksHere(b, d.cb);
    DrainEnds(a.root, b.root, k, s, d.Sc(), pairs, early, rest, la);
  }

  lemma {:induction false} DrainEnds(a: Tree, b: Tree, k: Setup, s: Scene, s': Scene, pairs: seq<(Key, Bytes)>, early: seq<(Key, Bytes)>, rest: seq<Entry>, la: Key -> bool)
    requires WF(a, false) && WF(b, false) && k.held == List(a, []) && s.b.todo == List(b, []) && Emptied(k, s, s', pairs, early, rest, la)
    ensures (s'.lost ==> s'.a.failed && exists p :: !la(p)) && Suffix(rest, List(b, []))
    ensures s'.b.todo == [] ==> (!s'.lost ==> rest == []) && (AllMissing(pairs, a, b) <==> NoneHeld(rest, a))
    ensures NoneLoads(la) && !s.a.on && s.a.todo != [] && s'.b.todo == [] ==>
              pairs == Pairs(rest) && Pairs(Absent(rest, k.held)) == Pairs(Absent(s.b.todo, k.held))
  {
    assert Peer(s, 0);
    MissingExactly(a, b, early, rest);
    if s'.b.todo == [] {
      assert pairs + [] == pairs && early + [] == early;
      if early == [] { assert [] + Pairs(rest) == Pairs(rest) && [] + Pairs(Absent(rest, k.held)) == Pairs(Absent(rest, k.held)); }
    }
  }

  lemma {:induction false} AbsentSorted(es: seq<Entry>, a: seq<Entry>)
    requires Sorted(es)
    ensures Sorted(Absent(es, a))
  {
    if es != [] {
      var rest := es[1..];
      AbsentSorted(rest, a);
      forall e | e in Absent(rest, a) ensures Less(es[0].path, e.path) {
        AbsentIn(rest, a, e);
        var j :| 0 <= j < |rest| && rest[j] == e;
        assert es[j + 1] == e;
      }
    }
  }

  lemma {:induction false} AbsentIsMissing(a: Tree, b: Tree)
    requires WF(a, false) && WF(b, false)
    ensures AllMissing(Pairs(Absent(List(b, []), List(a, []))), a, b)
  {
    var es := Absent(List(b, []), List(a, []));
    BelowSorted(b, [], false);
    AbsentSorted(List(b, []), List(a, []));
    PairsRise(es);
    forall k, v ensures (k, v) in Pairs(es) <==> Stored(b, k, v) && !Stored(a, k, v) {
      AbsentPairs(List(b, []), List(a, []), k, v);
      PairsIn(List(b, []), k, v);
      PairsIn(List(a, []), k, v);
      ListedIsStored(a, k, v);
      ListedIsStored(b, k, v);
    }
  }

  /** What is missing from a, as pairs: exactly b's pairs that a does not hold. */
  lemma {:induction false} AbsentPairs(es: seq<Entry>, a: seq<Entry>, k: Key, v: Bytes)
    ensures (k, v) in Pairs(Absent(es, a)) <==> (k, v) in Pairs(es) && (k, v) !in Pairs(a)
  {
    PairsIn(Absent(es, a), k, v);
    PairsIn(es, k, v);
    PairsIn(a, k, v);
    AbsentIn(es, a, Entry(k, Val(v)));
  }

  lemma {:induction false} AbsentIn(es: seq<Entry>, a: seq<Entry>, e: Entry)
    ensures e in Absent(es, a) <==> e in es && e.tree.Val? && e !in a
  {
    if es != [] {
      AbsentIn(es[1..], a, e);
      assert es == [es[0]] + es[1..];
    }
  }
}
