/**
 The explicit-stack iterator of trie/iterator.go.  What it has still to visit is always a list
 of entries; `Next` takes the head of that list, and seeking drops exactly the entries whose
 path is below the start key.

 The iterator loads nodes as it meets them.  A loaded node stands for the same tree as its
 hash (`Nodes.ResolveSound`), so a frame holds that tree; `loads` says at which paths the
 database can deliver the node.  It is arbitrary, and may be different at every call.
 */
module TrieIterator {
  import opened Encoding
  import opened Tree
  import opened Listing

  /** `nodeIteratorState`: `index` is the last child already visited. */
  datatype Frame = Frame(node: Tree, index: int, pathlen: nat)

  /** The error field: none yet, end of iteration, a seek to resume, or a missing node. */
  datatype Status = Running | Ended | SeekFailed(key: Bytes) | Failed

  datatype Peeked = AtEnd | Missing | Found(state: Frame, path: Key)

  // ---------------------------------------------------------------------------
  // The entries still to visit
  // ---------------------------------------------------------------------------

  /** The entries below a frame that have not been visited. */
  function Pending(f: Frame, p: Key): seq<Entry> {
    match f.node
    case Branch(kids) => KidsFrom(kids, if f.index < 0 then 0 else f.index + 1, p)
    case Ext(key, sub) => if f.index < 0 then List(sub, p + key) else []
    case _ => []
  }

  function Rest(stack: seq<Frame>, path: Key): seq<Entry> {
    if stack == [] then []
    else
      var n := |stack| - 1;
      var f := stack[n];
      Pending(f, path) + (if f.pathlen <= |path| then Rest(stack[..n], path[..f.pathlen]) else [])
  }

  lemma {:induction false} Assoc<X>(a: seq<X>, b: seq<X>, c: seq<X>)
    ensures (a + b) + c == a + (b + c)
  {
  }

  /** Leaving a frame that has nothing pending. */
  lemma {:induction false} RestUp(stack: seq<Frame>, path: Key)
    requires stack != [] && stack[|stack| - 1].pathlen <= |path|
    ensures Rest(stack, path) == Pending(stack[|stack| - 1], path) + Rest(stack[..|stack| - 1], path[..stack[|stack| - 1].pathlen])
    ensures Pending(stack[|stack| - 1], path) == [] ==>
              Rest(stack, path) == Rest(stack[..|stack| - 1], path[..stack[|stack| - 1].pathlen])
  {
    if Pending(stack[|stack| - 1], path) == [] {
      var rest := Rest(stack[..|stack| - 1], path[..stack[|stack| - 1].pathlen]);
      assert [] + rest == rest;
    }
  }

  /** Every frame's index is in range, and the frames' paths are growing prefixes of the current path. */
  ghost predicate StackOk(stack: seq<Frame>, path: Key) {
    if stack == [] then path == []
    else
      var n := |stack| - 1;
      && -1 <= stack[n].index < 17
      && (stack[n].node.Branch? ==> |stack[n].node.kids| == 17)
      && stack[n].pathlen <= |path|
      && StackOk(stack[..n], path[..stack[n].pathlen])
  }

  /** The stack with the index of its top frame replaced. */
  function Retop(stack: seq<Frame>, index: int): seq<Frame>
    requires stack != []
  {
    var n := |stack| - 1;
    stack[n := stack[n].(index := index)]
  }

  /** The child of the top frame at `p` is the next thing to visit, and counting it leaves the rest. */
  ghost predicate ChildFound(stack: seq<Frame>, path: Key, child: Tree, p: Key)
    requires stack != []
  {
    && path <= p && stack[|stack| - 1].index < 16
    && Rest(stack, path) == List(child, p) + Rest(Retop(stack, stack[|stack| - 1].index + 1), path)
  }

  lemma {:induction false} RetopRest(stack: seq<Frame>, path: Key, index: int)
    requires stack != [] && StackOk(stack, path) && -1 <= index < 17
    ensures var n := |stack| - 1;
            var f := stack[n].(index := index);
            && StackOk(Retop(stack, index), path)
            && Rest(Retop(stack, index), path) == Pending(f, path) + Rest(stack[..n], path[..f.pathlen])
  {
    var n := |stack| - 1;
    assert Retop(stack, index)[..n] == stack[..n];
  }

  lemma {:induction false} SkipNils(ts: seq<Tree>, i: nat, j: nat, p: Key)
    requires i <= j <= |ts| && forall k :: i <= k < j ==> ts[k].Empty?
    ensures KidsFrom(ts, i, p) == KidsFrom(ts, j, p)
    decreases j - i
  {
    if i < j { SkipNils(ts, i + 1, j, p); }
  }

  lemma {:induction false} FullChild(stack: seq<Frame>, path: Key, i: nat)
    requires stack != [] && StackOk(stack, path)
    requires var f := stack[|stack| - 1];
             f.node.Branch? && f.index < i < 17 && !f.node.kids[i].Empty? && forall j :: f.index < j < i ==> f.node.kids[j].Empty?
    ensures var stack' := Retop(stack, i - 1);
            && StackOk(stack', path) && Rest(stack', path) == Rest(stack, path)
            && ChildFound(stack', path, stack[|stack| - 1].node.kids[i], path + [i])
  {
    var n := |stack| - 1;
    var f := stack[n];
    SkipNils(f.node.kids, f.index + 1, i, path);
    RestUp(stack, path);
    RetopRest(stack, path, i - 1);
    RetopRest(stack, path, i);
    assert Retop(Retop(stack, i - 1), i) == Retop(stack, i);
    Assoc(List(f.node.kids[i], path + [i]), KidsFrom(f.node.kids, i + 1, path), Rest(stack[..n], path[..f.pathlen]));
  }

  lemma {:induction false} ShortChild(stack: seq<Frame>, path: Key)
    requires stack != [] && StackOk(stack, path)
    requires var f := stack[|stack| - 1]; f.node.Ext? && f.index < 0
    ensures var f := stack[|stack| - 1]; ChildFound(stack, path, f.node.sub, path + f.node.key)
  {
    RestUp(stack, path);
    RetopRest(stack, path, 0);
    RestUp(Retop(stack, 0), path);
    assert Retop(stack, 0)[..|stack| - 1] == stack[..|stack| - 1];
  }

  lemma {:induction false} PushRest(stack: seq<Frame>, path: Key, f: Frame, p: Key)
    requires StackOk(stack, path) && f.pathlen == |path| && path <= p && f.index == -1
    requires f.node.Branch? ==> |f.node.kids| == 17
    ensures StackOk(stack + [f], p)
    ensures [Entry(p, f.node)] + Rest(stack + [f], p) == List(f.node, p) + Rest(stack, path)
  {
    var s := stack + [f];
    assert s[..|s| - 1] == stack && p[..f.pathlen] == path;
    assert Pending(f, p) == Below(f.node, p);
    RestUp(s, p);
    Assoc([Entry(p, f.node)], Below(f.node, p), Rest(stack, path));
  }

  lemma {:induction false} FoundIsHead(stack: seq<Frame>, path: Key, child: Tree, p: Key)
    requires stack != [] && ChildFound(stack, path, child, p)
    ensures Rest(stack, path) != [] && Rest(stack, path)[0] == Entry(p, child)
  {
    assert List(child, p)[0] == Entry(p, child);
  }

  /** Everything pending at the top of the stack lies under the current path. */
  lemma {:induction false} PendingUnder(f: Frame, p: Key)
    ensures AllUnder(Pending(f, p), p)
  {
    match f.node
    case Branch(kids) => KidsUnder(kids, if f.index < 0 then 0 else f.index + 1, p);
    case Ext(key, sub) => ListUnder(sub, p + key); UnderLonger(List(sub, p + key), p, key);
    case _ =>
  }

  /** Every listed node of a well-formed tree is well formed, so its children can be indexed up to 16. */
  lemma {:induction false} ListedWF(t: Tree, p: Key, end: bool, e: Entry)
    requires WF(t, end) && e in List(t, p)
    ensures WF(e.tree, false) || WF(e.tree, true)
    decreases t, 1, 0
  {
    if e != Entry(p, t) {
      match t
      case Ext(key, sub) => ListedWF(sub, p + key, HasTerm(key), e);
      case Branch(kids) => ListedKidWF(kids, 0, p, e);
      case _ =>
    }
  }

  lemma {:induction false} ListedKidWF(kids: seq<Tree>, i: nat, p: Key, e: Entry)
    requires |kids| == 17 && forall j :: 0 <= j < 17 ==> WF(kids[j], j == TERMINATOR)
    requires e in KidsFrom(kids, i, p)
    ensures WF(e.tree, false) || WF(e.tree, true)
    decreases kids, 0, |kids| - i
  {
    if !kids[i].Empty? && e in List(kids[i], p + [i]) {
      ListedWF(kids[i], p + [i], i == TERMINATOR, e);
    } else {
      ListedKidWF(kids, i + 1, p, e);
    }
  }

  lemma {:induction false} PrefixStaysBelow(p: Key, q: Key, key: Key)
    requires p <= q
    ensures Less(q, key) ==> Less(p, key)
  {
    LessPrefix(p, q);
    if Less(q, key) && p != q { LessTrans(p, q, key); }
  }

  /** In a sorted listing, everything after an entry at or above the key is above it. */
  lemma {:induction false} SuffixAtLeast(es: seq<Entry>, key: Key)
    requires es != [] && Sorted(es) && AtLeast(es[0].path, key)
    ensures forall e :: e in es ==> AtLeast(e.path, key)
  {
    forall e | e in es ensures AtLeast(e.path, key) {
      if Less(e.path, key) && e != es[0] {
        LessTrans(es[0].path, e.path, key);
      }
    }
  }

  // ---------------------------------------------------------------------------
  // The iterator
  // ---------------------------------------------------------------------------

  /** What is left of a listing is sorted, and its full nodes have 17 entries. */
  lemma {:induction false} PartOfListing(root: Tree, gone: seq<Entry>, es: seq<Entry>)
    requires WF(root, false) && List(root, []) == gone + es
    ensures Sorted(es)
    ensures es != [] && es[0].tree.Branch? ==> |es[0].tree.kids| == 17
  {
    var all := List(root, []);
    BelowSorted(root, [], false);
    assert forall i :: 0 <= i < |es| ==> es[i] == all[|gone| + i];
    if es != [] {
      assert es[0] in all;
      ListedWF(root, [], false, es[0]);
    }
  }

  lemma {:induction false} PassedBelow(gone: seq<Entry>, n: nat, path: Key, key: Key)
    requires n <= |gone| && forall e :: e in gone[..n] ==> Less(e.path, key)
    requires forall e :: e in gone[n..] ==> !(path <= key) && Less(path, key) && path <= e.path
    ensures forall e :: e in gone ==> Less(e.path, key)
  {
    forall e | e in gone ensures Less(e.path, key) {
      assert gone == gone[..n] + gone[n..];
      if e in gone[n..] { LessExtended(path, key, e.path); }
    }
  }

  /** Passing over entries below the key keeps those at or above it. */
  lemma {:induction false} SeekKeeps(root: Tree, gone: seq<Entry>, todo: seq<Entry>, gone': seq<Entry>, todo': seq<Entry>, key: Key)
    requires List(root, []) == gone + todo == gone' + todo'
    requires (forall e :: e in gone ==> Less(e.path, key)) && forall e :: e in gone' ==> Less(e.path, key)
    ensures From(todo', key) == From(todo, key)
  {
    FromDrop(gone, todo, key);
    FromDrop(gone', todo', key);
  }

  lemma {:induction false} Drained(root: Tree, key: Key, pairs: seq<(Key, Bytes)>, rest: seq<(Key, Bytes)>)
    requires WF(root, false) && pairs + rest == Pairs(From(List(root, []), key))
    ensures AllFrom(pairs + rest, root, key) && (rest == [] ==> AllFrom(pairs, root, key))
  {
    PairsAbove(root, key);
    if rest == [] { assert pairs + rest == pairs; }
  }

  class NodeIterator {
    const root: Tree
    var stack: seq<Frame>
    var path: Key
    var err: Status

    /** The entries visited or passed over so far. */
    ghost var gone: seq<Entry>

    ghost predicate Valid()
      reads this
    {
      && WF(root, false)
      && StackOk(stack, path)
      && List(root, []) == gone + Todo()
      && (err.Ended? ==> stack == [])
      && (err.SeekFailed? ==> Seeking(StartKey(err.key)))
    }

    /** A seek under way: everything passed so far, and the current node, is below the key. */
    ghost predicate Seeking(key: Key)
      reads this
    {
      (stack == [] || Less(path, key)) && forall e :: e in gone ==> Less(e.path, key)
    }

    /** The entries still to visit; an empty stack means not started or, once ended, none. */
    ghost function Todo(): seq<Entry>
      reads this`stack, this`path, this`err
    {
      if stack != [] then Rest(stack, path) else if err.Ended? then [] else List(root, [])
    }

    /** What `Next` goes on to: after an interrupted seek, only what is at or above its key. */
    ghost function Coming(): seq<Entry>
      reads this`stack, this`path, this`err
    {
      if err.SeekFailed? then From(Todo(), StartKey(err.key)) else Todo()
    }

    /** What the next step chooses from: without descending, the subtree of the current node is dropped. */
    ghost function Upcoming(descend: bool): seq<Entry>
      reads this`stack, this`path, this`err
    {
      if stack == [] || descend then Todo()
      else
        var n := |stack| - 1;
        if stack[n].pathlen <= |path| then Rest(stack[..n], path[..stack[n].pathlen]) else []
    }

    /** The hex key `seek` looks for, without its terminator. */
    static function StartKey(start: Bytes): Key { Unpack(start) }

    constructor (root: Tree)
      requires WF(root, false)
      ensures Valid() && this.root == root && stack == [] && err == Running && gone == []
      ensures Todo() == List(root, [])
    {
      this.root := root;
      stack, path, err, gone := [], [], Running, [];
    }

    method Pop()
      requires StackOk(stack, path) && stack != []
      modifies this`stack, this`path
      ensures StackOk(stack, path) && path <= old(path)
      ensures Rest(stack, path) == old(Upcoming(false)) && |stack| == |old(stack)| - 1
    {
      var parent := stack[|stack| - 1];
      path := path[..parent.pathlen];
      stack := stack[..|stack| - 1];
    }

    /** The next child of the top frame, as the source finds it. */
    method NextChild() returns (r: Option<(Tree, Key)>)
      requires StackOk(stack, path) && stack != []
      modifies this`stack
      ensures r.None? ==> stack == old(stack) && Pending(stack[|stack| - 1], path) == []
      ensures r.Some? ==> StackOk(stack, path) && |stack| == |old(stack)| && Rest(stack, path) == old(Rest(stack, path))
      ensures r.Some? ==> ChildFound(stack, path, r.value.0, r.value.1)
    {
      var n := |stack| - 1;
      var parent := stack[n];
      match parent.node
      case Branch(kids) =>
        var i := parent.index + 1;
        while i < 17
          invariant 0 <= i <= 17
          invariant forall j :: parent.index < j < i ==> kids[j].Empty?
          invariant stack == old(stack)
        {
          if !kids[i].Empty? {
            FullChild(stack, path, i);
            stack := Retop(stack, i - 1);
            return Some((kids[i], path + [i]));
          }
          i := i + 1;
        }
        SkipNils(kids, parent.index + 1, 17, path);
        return None;
      case Ext(key, sub) =>
        if parent.index < 0 {
          ShortChild(stack, path);
          return Some((sub, path + key));
        }
        return None;
      case _ => return None;
    }

    /** What a found step promises: it is the head of what is upcoming. */
    ghost predicate Pushable(r: Peeked)
      requires r.Found?
      reads this`stack, this`path
    {
      && path <= r.path && r.state.pathlen == |path| && r.state.index == -1
      && if stack == [] then r.state.node == root && r.path == []
         else ChildFound(stack, path, r.state.node, r.path)
    }

    /** The loop of `peek`: move up until some frame has a child left. */
    method PeekChild(loads: Key -> bool) returns (r: Peeked)
      requires StackOk(stack, path)
      modifies this`stack, this`path
      ensures StackOk(stack, path) && path <= old(path)
      ensures r.AtEnd? ==> stack == [] && old(Rest(stack, path)) == []
      ensures !r.AtEnd? ==> stack != [] && Rest(stack, path) == old(Rest(stack, path)) != []
      ensures !r.AtEnd? ==> r.Found? == loads(Rest(stack, path)[0].path)
      ensures r.Found? ==> Pushable(r) && Rest(stack, path)[0] == Entry(r.path, r.state.node)
    {
      while |stack| > 0
        invariant StackOk(stack, path) && path <= old(path)
        invariant Rest(stack, path) == old(Rest(stack, path))
        decreases |stack|
      {
        var c := NextChild();
        if c.Some? {
          var (node, p) := c.value;
          FoundIsHead(stack, path, node, p);
          if loads(p) { return Found(Frame(node, -1, |path|), p); } else { return Missing; }
        }
        RestUp(stack, path);
        Pop();
      }
      return AtEnd;
    }

    method Peek(descend: bool, loads: Key -> bool) returns (r: Peeked)
      requires StackOk(stack, path) && !err.Ended?
      modifies this`stack, this`path
      ensures StackOk(stack, path) && path <= old(path)
      ensures r.AtEnd? ==> stack == [] && old(Upcoming(descend)) == []
      ensures !r.AtEnd? ==> Todo() == old(Upcoming(descend)) != [] && r.Found? == loads(Todo()[0].path)
      ensures !r.AtEnd? ==> (stack == [] <==> old(stack) == [])
      ensures r.Found? ==> Pushable(r) && Todo()[0] == Entry(r.path, r.state.node)
    {
      if |stack| == 0 {
        assert Todo()[0] == Entry([], root);
        if loads([]) { return Found(Frame(root, -1, 0), []); } else { return Missing; }
      }
      if !descend { Pop(); }
      r := PeekChild(loads);
    }

    method Push(r: Peeked)
      requires StackOk(stack, path) && !err.Ended? && r.Found? && Pushable(r)
      requires r.state.node.Branch? ==> |r.state.node.kids| == 17
      modifies this`stack, this`path
      ensures StackOk(stack, path) && stack != [] && path == r.path && stack[|stack| - 1] == r.state
      ensures [Entry(path, Current())] + Todo() == old(Todo())
    {
      var below := if stack == [] then [] else Retop(stack, stack[|stack| - 1].index + 1);
      if stack != [] { RetopRest(stack, path, stack[|stack| - 1].index + 1); }
      PushRest(below, path, r.state, r.path);
      path := r.path;
      stack := below + [r.state];
    }

    /** The subtree the iterator is positioned on. */
    function Current(): Tree
      reads this`stack
    {
      if stack == [] then Empty else stack[|stack| - 1].node
    }

    /**
     Moves to the next entry of what is still to visit.  It fails only at the end, or when the
     node there cannot be loaded, and then nothing is lost.
     */
    method Advance(descend: bool, loads: Key -> bool) returns (ok: bool)
      requires Valid() && !err.SeekFailed?
      modifies this`stack, this`path, this`err, this`gone
      ensures Valid()
      ensures ok == (old(Upcoming(descend)) != [] && loads(old(Upcoming(descend))[0].path))
      ensures !ok ==> Todo() == old(Upcoming(descend)) && err == if Todo() == [] then Ended else Failed
      ensures !ok && Todo() != [] ==> (stack == [] <==> old(stack) == [])
      ensures ok ==> err == Running && Standing() && [Entry(path, Current())] + Todo() == old(Upcoming(descend))
      ensures ok && descend ==> gone == old(gone) + [Entry(path, Current())]
    {
      if err.Ended? { return false; }
      var r := Step(descend, loads);
      ok := r.Found?;
      if ok { Visit(r); }
    }

    /** The iterator stands on the entry it visited last, with nothing below it visited yet. */
    ghost predicate Standing()
      reads this
    {
      && stack != [] && stack[|stack| - 1].index == -1
      && gone != [] && gone[|gone| - 1] == Entry(path, Current())
    }

    /** Pushes the entry found and records it as visited. */
    method Visit(r: Peeked)
      requires StackOk(stack, path) && WF(root, false) && err == Running && r.Found? && Pushable(r)
      requires List(root, []) == gone + Todo() && (r.state.node.Branch? ==> |r.state.node.kids| == 17)
      modifies this`stack, this`path, this`gone
      ensures Valid() && path == r.path && Current() == r.state.node
      ensures Standing()
      ensures gone == old(gone) + [Entry(path, Current())] && [Entry(path, Current())] + Todo() == old(Todo())
    {
      ghost var todo := Todo();
      Push(r);
      ghost var here := Entry(path, Current());
      assert todo == [here] + Todo();
      Assoc(gone, [here], Todo());
      assert List(root, []) == (gone + [here]) + Todo();
      gone := gone + [here];
      assert List(root, []) == gone + Todo();
    }

    /** `Peek`, with its outcome in the error field, told as what it leaves to visit. */
    method Step(descend: bool, loads: Key -> bool) returns (r: Peeked)
      requires Valid() && !err.Ended?
      modifies this`stack, this`path, this`gone, this`err
      ensures StackOk(stack, path) && path <= old(path)
      ensures Todo() == old(Upcoming(descend)) && List(root, []) == gone + Todo()
      ensures forall e :: e in gone[|old(gone)|..] ==> !descend && old(stack) != [] && old(path) <= e.path
      ensures gone[..|old(gone)|] == old(gone) && |gone| >= |old(gone)|
      ensures descend ==> gone == old(gone)
      ensures r.AtEnd? ==> err == Ended && stack == [] && Todo() == []
      ensures !r.AtEnd? ==> Todo() != [] && r.Found? == loads(Todo()[0].path) && err == if r.Found? then Running else Failed
      ensures !r.AtEnd? ==> (stack == [] <==> old(stack) == [])
      ensures r.Found? ==> Pushable(r) && Todo()[0] == Entry(r.path, r.state.node)
      ensures r.Found? && r.state.node.Branch? ==> |r.state.node.kids| == 17
    {
      PassOver(descend);
      r := Look(descend, loads);
      PartOfListing(root, gone, Todo());
    }

    method Look(descend: bool, loads: Key -> bool) returns (r: Peeked)
      requires StackOk(stack, path) && !err.Ended?
      modifies this`stack, this`path, this`err
      ensures StackOk(stack, path) && path <= old(path) && Todo() == old(Upcoming(descend))
      ensures r.AtEnd? ==> err == Ended && stack == [] && Todo() == []
      ensures !r.AtEnd? ==> Todo() != [] && r.Found? == loads(Todo()[0].path) && err == if r.Found? then Running else Failed
      ensures !r.AtEnd? ==> (stack == [] <==> old(stack) == [])
      ensures r.Found? ==> Pushable(r) && Todo()[0] == Entry(r.path, r.state.node)
    {
      r := Peek(descend, loads);
      err := if r.AtEnd? then Ended else if r.Missing? then Failed else Running;
    }

    /** Records what a step without descending passes over. */
    ghost method PassOver(descend: bool)
      requires Valid()
      modifies this`gone
      ensures List(root, []) == gone + Upcoming(descend)
      ensures forall e :: e in gone[|old(gone)|..] ==> !descend && old(stack) != [] && old(path) <= e.path
      ensures gone[..|old(gone)|] == old(gone) && |gone| >= |old(gone)|
      ensures descend ==> gone == old(gone)
    {
      ghost var passed := Passed(descend);
      assert (gone + passed)[|gone|..] == passed;
      gone := gone + passed;
    }

    /** The entries a step without descending passes over. */
    ghost function Passed(descend: bool): (es: seq<Entry>)
      requires Valid()
      reads this
      ensures List(root, []) == (gone + es) + Upcoming(descend)
      ensures forall e :: e in es ==> !descend && stack != [] && path <= e.path
    {
      if descend || stack == [] then assert gone + [] == gone; []
      else
        RestUp(stack, path);
        PendingUnder(stack[|stack| - 1], path);
        Assoc(gone, Pending(stack[|stack| - 1], path), Upcoming(descend));
        Pending(stack[|stack| - 1], path)
    }

    /**
     `seek`: passes over entries, all below the start key, until the next entry is at or above
     it.  A node that cannot be loaded interrupts the seek, which can be resumed from there.
     */
    method Seek(start: Bytes, loads: Key -> bool)
      requires Valid() && !err.Ended? && Seeking(StartKey(start))
      modifies this`stack, this`path, this`err, this`gone
      ensures Valid()
      ensures err == Running || err == Ended || err == SeekFailed(start)
      ensures forall e :: e in gone ==> Less(e.path, StartKey(start))
      ensures !err.SeekFailed? ==> forall e :: e in Todo() ==> AtLeast(e.path, StartKey(start))
      ensures err.SeekFailed? ==> Todo() != [] && !loads(Todo()[0].path)
      ensures err == Running ==> Todo() != [] && loads(Todo()[0].path)
      ensures Coming() == From(old(Todo()), StartKey(start))
    {
      var key := StartKey(start);
      ghost var before, todo := gone, Todo();
      err := Running;
      while true
        invariant Valid() && err == Running && Seeking(key)
        decreases |Todo()|
      {
        var r := SeekStep(key, loads);
        SeekKeeps(root, before, todo, gone, Todo(), key);
        if r.AtEnd? { return; }
        if r.Missing? {
          err := SeekFailed(start);
          return;
        }
        if !Less(r.path, key) {
          FromAll(Todo(), key);
          return;
        }
        Count(r, key);
      }
    }

    /** One look ahead of `seek`, which passes over the current subtree unless it may hold the key. */
    method SeekStep(key: Key, loads: Key -> bool) returns (r: Peeked)
      requires Valid() && err == Running && Seeking(key)
      modifies this`stack, this`path, this`gone, this`err
      ensures Valid() && forall e :: e in gone ==> Less(e.path, key)
      ensures r.AtEnd? ==> err == Ended
      ensures !r.AtEnd? ==> Seeking(key) && Todo() != [] && r.Found? == loads(Todo()[0].path) && |Todo()| <= |old(Todo())|
      ensures r.Found? ==> err == Running && Pushable(r) && (r.state.node.Branch? ==> |r.state.node.kids| == 17)
      ensures r.Found? && !Less(r.path, key) ==> forall e :: e in Todo() ==> AtLeast(e.path, key)
    {
      ghost var before, was := |gone|, path;
      r := Step(path <= key, loads);
      PassedBelow(gone, before, was, key);
      PrefixStaysBelow(path, was, key);
      if r.Found? && !Less(r.path, key) {
        PartOfListing(root, gone, Todo());
        SuffixAtLeast(Todo(), key);
      }
    }

    /** Pushes an entry below the key. */
    method Count(r: Peeked, ghost key: Key)
      requires Valid() && err == Running && r.Found? && Pushable(r) && Seeking(key) && Less(r.path, key)
      requires r.state.node.Branch? ==> |r.state.node.kids| == 17
      modifies this`stack, this`path, this`gone
      ensures Valid() && Seeking(key) && |Todo()| < |old(Todo())|
    {
      Visit(r);
      assert forall e :: e in gone ==> e in old(gone) || e == Entry(path, Current());
    }

    /** `Next`: resumes an interrupted seek first.  It fails at the end, or when a node cannot be loaded, and then can be called again. */
    method Next(descend: bool, loads: Key -> bool) returns (ok: bool)
      requires Valid()
      modifies this`stack, this`path, this`err, this`gone
      ensures Valid()
      ensures !old(err).SeekFailed? ==> ok == (old(Upcoming(descend)) != [] && loads(old(Upcoming(descend))[0].path)) && !err.SeekFailed?
      ensures !old(err).SeekFailed? && ok ==> [Entry(path, Current())] + Todo() == old(Upcoming(descend))
      ensures !old(err).SeekFailed? && !ok ==> Todo() == old(Upcoming(descend))
      ensures ok ==> err == Running && Standing()
      ensures descend && ok ==> [Entry(path, Current())] + Todo() == old(Coming())
      ensures descend && !ok ==> Coming() == old(Coming()) && Halted(loads)
    {
      if err.SeekFailed? {
        Seek(err.key, loads);
        if err != Running { return false; }
      }
      ok := Advance(descend, loads);
    }

    /** At the end, or in front of a node that cannot be loaded. */
    ghost predicate Halted(loads: Key -> bool)
      reads this
    {
      if err.Ended? then Todo() == [] else Todo() != [] && !loads(Todo()[0].path)
    }

    /** `Error`: the end is no error. */
    predicate Error()
      reads this`err
    {
      err.Failed? || err.SeekFailed?
    }

    /** `Leaf`, by the terminator of the path. */
    predicate Leaf()
      reads this`path
    {
      HasTerm(path)
    }

    /** `Iterator.Next`: the next key/value pair; `LeafBlob` is only read at a value. */
    method NextPair(loads: Key -> bool) returns (r: Option<(Key, Bytes)>)
      requires Valid()
      modifies this`stack, this`path, this`err, this`gone
      ensures Valid()
      ensures r.Some? ==> Pairs(old(Coming())) == [r.value] + Pairs(Coming())
      ensures r.None? ==> Pairs(old(Coming())) == Pairs(Coming()) && Halted(loads)
      ensures |Coming()| <= |old(Coming())| && (r.Some? ==> |Coming()| < |old(Coming())|)
    {
      while true
        invariant Valid() && Pairs(Coming()) == Pairs(old(Coming())) && |Coming()| <= |old(Coming())|
        decreases |Coming()|
      {
        ghost var coming := Coming();
        var ok := Next(true, loads);
        if !ok { return None; }
        assert coming[0] == Entry(path, Current()) && coming[1..] == Todo();
        LeafHere();
        if Leaf() { return Some((path, Current().v)); }
      }
    }

    /**
     `NewIterator` over `NodeIterator(start)`, drained: seeking to a key and taking pairs until there
     are none gives the stored pairs at or above the key, each once and in order.  If a node cannot be
     loaded, it gives the first of them, and the rest is still coming.
     */
    method Drain(start: Bytes, loads: Key -> bool) returns (pairs: seq<(Key, Bytes)>)
      requires Valid() && stack == [] && err == Running && gone == []
      modifies this`stack, this`path, this`err, this`gone
      ensures Valid() && Halted(loads) && AllFrom(pairs + Pairs(Coming()), root, StartKey(start))
      ensures err.Ended? ==> AllFrom(pairs, root, StartKey(start))
      ensures (forall p :: loads(p)) ==> err.Ended?
    {
      Seek(start, loads);
      pairs := TakeAll(loads);
      Drained(root, StartKey(start), pairs, Pairs(Coming()));
    }

    /** Takes pairs until there are none. */
    method TakeAll(loads: Key -> bool) returns (pairs: seq<(Key, Bytes)>)
      requires Valid()
      modifies this`stack, this`path, this`err, this`gone
      ensures Valid() && Halted(loads) && pairs + Pairs(Coming()) == Pairs(old(Coming()))
    {
      pairs := [];
      while true
        invariant Valid() && pairs + Pairs(Coming()) == Pairs(old(Coming()))
        decreases |Coming()|
      {
        var r := NextPair(loads);
        if r.None? { return; }
        Assoc(pairs, [r.value], Pairs(Coming()));
        pairs := pairs + [r.value];
      }
    }

    lemma {:induction false} LeafHere()
      requires Valid() && gone != [] && gone[|gone| - 1] == Entry(path, Current())
      ensures Leaf() <==> Current().Val?
    {
      assert Entry(path, Current()) in List(root, []);
      TermIsLeaf(root, [], false, Entry(path, Current()));
    }
  }
}
