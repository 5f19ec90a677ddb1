# Verified models of OG

OG is a DAG-structured ledger node written in Go.  This project models the parts of it whose
correctness rests on invariants over unbounded data or over whole runs, and proves those
invariants in Dafny.  `dafny verify dfyconfig.toml` checks everything.

## What is modelled

**Merkle Patricia trie** (`Encoding`, `Tree`, `TreeOps`, `Nodes`, `NodeOps`, `NodePaths`,
`Hasher`, `Trie`, `TrieCache`).  The trie of `trie/` is a copy-on-write radix trie with hex-prefix keys (Appendix C of the Ethereum
Yellow Paper), lazily loaded subtries and cached node hashes.  `Tree` gives the abstract content of
a trie and shows that a well-formed tree is determined by the map it holds.  `TreeOps` is insertion
and deletion on whole trees.  `Nodes` adds hash nodes, cache flags and the content store, and
`NodeOps` proves that the code, which works on partly loaded nodes, does to the content what
`TreeOps` does.  `Hasher` proves that hashing and committing are invisible.  `Trie` puts it
together over arbitrary runs: lookups answer as a finite map would, an operation that meets a missing
node reports it and changes nothing, and two root hashes are equal exactly when the maps are.
`NodePaths` says by position alone which nodes an operation has to load, and so exactly when it reports
a missing one, and `TrieCache` for how many commits a trie that is left alone stays in memory.

**Iteration** (`Listing`, `TrieIterator`, `DifferenceIterator`, `UnreadableTrie`).  The explicit-stack iterator is
tied to the recursive pre-order listing of the trie; the difference iterator is proved to produce
exactly what one trie holds and the other does not, although it skips equal subtries, as long as the
first trie can be read; what a node that cannot be loaded does to the result is stated exactly.

**Trie node cache** (`NodeGraph`, `NodeCommit`, `NodeDatabase`, `StaleReference`).  Reference counts
are exact, the cascading dereference collects exactly the garbage, and the two-phase commit moves a trie to disk
without any reader noticing.

**State sync** (`SyncGraph`, `SyncState`, `StateSync`, `FailedCallback`, `SharedNode`).  The download scheduler counts
dependencies exactly and asks for no hash twice.  As long as no callback fails it stores no node before
its children and never stalls.  Every node is fetched under a callback that leads to it from the root,
hash children inheriting the callback of their parent; when a finished download is complete, and what
a failed callback does, is stated exactly.

**Transaction pool and ledger** (`Ledger`, `Batches`, `BatchBuilder`, `Nonces`, `Dag`,
`AccountFlows`, `PoolState`, `PoolSteps`, `ElderSearch`, `Confirmation`, `TxPool`, `LostTwin`).  One event of
the pool's loop is one method of `TxPool.Pool`.  Between events tips are the frontier of the good
transactions, pooled spending is covered by confirmed balances, the confirmed ledger is solvent and
indexed, sequencers are numbered without a gap, and the nonces of every account that issues no
sequencer form one gap-free interval.  When a transaction is good, bad or fatal, and in which order the
rest of the pool is judged again after a confirmation, is stated without the code that decides it.

**Peer-to-peer** (`MessageCodes`, `Dialer`).  Both ends of a connection compute the same message
codes, and the dial scheduler keeps its budget and its redial delay.

`Sums` holds totals over finite sets.

## Reading the models

Hashes are treated as injective: a hash in the trie is the constructor `Keccak` of what it hashes,
and in the pool `content` gives the transaction of a hash.  Calls into code that is not modelled
are parameters: which blobs are small enough to be inlined, which nodes can be loaded, how a blob
decodes, which sub-tries a callback adds and whether it then fails, which random nodes the discovery table returns, what the
time is.  Where Go ranges over a map, the model picks keys in any order, so the results hold for
every order.

Objects that the Go code updates in place are classes.  Their methods are specified by functions
or relations on the values of their fields, and the invariants are proved of those.

Some invariants are conjunctions of many quantified facts.  Predicates such as
`Confirmation.PoolOk`, `SyncState.Inv`, `NodeCommit.Gone` or `PoolSteps.Steady` wrap such a
conjunction in a quantifier over a dummy number, with a trigger (`Look`, `Glance`, `Weigh`,
`Mention`, `Peer`, `Watch`, `Mark`, `InLine`) that occurs only in the lemmas that open it.  They are
equivalent to what they wrap; the wrapping keeps the facts out of proofs that only pass them on.

## Where the code differs from what is said about it

- `core/tx_pool_test.go:209-214` expects a confirmed sequencer to be in the pool with status tip.
  The code clears the lookup, re-enters only normal transactions and then switches the status of a
  hash that is no longer there, so the sequencer becomes a tip without being in the lookup.  The model
  follows the code; `Confirmation.SequencerHasNoStatus` states it.
- Reference counts stay exact over insertions exactly as long as no cached node still references a
  committed node of the inserted hash: a committed and re-inserted node starts at zero references.
  `NodeGraph.InsertOk` proves the equivalence, and `StaleReference.Run` reaches such a state.
- Elders with the same sender and nonce: only one of them is kept in the batch, while the values of
  all of them count as outcome.  The past of a sequencer is confirmed completely if and only if it has
  no such twins (`Confirmation.PastConfirmed`); the others are lost (`Confirmation.TwinsLost`), and
  `LostTwin.Run` is a run of the pool that loses one.  `Batches.LedgerExact` states the balances.
- A leaf callback that returns an error leaves its node with data but without its children asked for.
  Every pending request waits for data that can still arrive exactly when no such node is left waiting
  for nothing (`SyncState.Progress`), and the node is left so exactly when the callback added no
  sub-trie that is still to be fetched (`StateSync.Sync.ProcessOne`); `FailedCallback.Stall` is a run
  that stalls.  If the callback had added sub-tries first, the node is stored when they arrive, without
  its children (`FailedCallback.Incomplete`).
- A node that is asked for twice keeps the callback of the first request, so what the second one would
  have added is not fetched; `SharedNode.LosesSubTrie` is a run that ends without it.  A finished
  download is complete under the callback of the root exactly when the odd nodes met on the way have all
  they lead to stored (`SyncState.Complete`): those whose callback failed, or on which another callback or none
  was run.  There are none to look at if no callback failed, no hash is met under two callbacks, and what
  was there at the start was complete (`SyncState.CompleteOnce`).
- A hash child counts as available when the database has any blob for it, also one that does not
  decode; a sub-trie root does not.  `SyncState.Complete` says what that leaves, and
  `FailedCallback.Undecodable` is a run that ends with such a blob below the root.
- When a step of the first trie of a difference fails to load a node during `Next`, the code takes that
  trie to be at its end: from the entry produced by that call on, everything that is left of the second
  trie is produced.  The result is right if and only if the first trie holds none of what was left
  (`DifferenceIterator.DifferenceOf`); `UnreadableTrie.Run` is a run that produces a pair both tries
  hold.  `Error` then reports the failure, so a result without an error is right.  A first step that fails in
  the constructor on a fresh iterator is different: `Next` tries it again, and nothing is lost if it then succeeds.

## Model

| member | source | states |
|---|---|---|
| `Encoding.KeybytesRoundTrip` | trie/encoding.go:65-88 | raw keys survive the trip to HEX and back |
| `Encoding.UnpackPack` | trie/encoding.go:90-94 | splitting packed nibbles gives the nibbles back |
| `Encoding.CompactRoundTrip` | trie/encoding.go:37-63 | for every nibble key, with or without terminator, of odd or even length, decoding the hex-prefix form gives the key back |
| `Encoding.CompactInjective` | trie/encoding.go:37-52 | different hex keys have different hex-prefix forms |
| `Encoding.KeybytesToHexLoop` | trie/encoding.go:65-74 | the buffer-filling loop computes the HEX form: quotient and remainder by 16 of every byte, then 16 |
| `Encoding.DecodeNibbles` | trie/encoding.go:90-94 | the packing loop fills exactly the bytes of the nibbles |
| `Encoding.HexToCompactLoop` | trie/encoding.go:37-52 | the buffer-filling code computes the hex-prefix form, in numbers: 0x20 for a terminated key, 0x10 and the first nibble more for an odd one, then the packed rest |
| `Encoding.CompactLayout` | trie/encoding.go:37-52 | the same numbers for the hex-prefix form of every key |
| `Encoding.HexOfCompact` | trie/encoding.go:54-63 | of any stored form the flag nibble tells whether an odd nibble and a terminator belong to the key |
| `Encoding.HexToKeybytesLoop` | trie/encoding.go:78-88 | an even key is packed, 16 times the first nibble and the second, after its terminator is dropped |
| `Encoding.PrefixLenLoop` | trie/encoding.go:97-108 | the loop returns the length of the longest common prefix |
| `Encoding.PrefixLenUnique` | trie/encoding.go:97-108 | the longest common prefix is the only length at which two keys agree before and differ after |
| `Tree.Canonical` | trie/trie.go:218-419 | two well-formed tries that hold the same map are the same tree |
| `TreeOps.InsertWF` | trie/trie.go:218-288 | insertion keeps the trie well formed |
| `TreeOps.InsertLookup` | trie/trie.go:218-288 | insertion sets one key and leaves every other key alone |
| `TreeOps.InsertSame` | trie/trie.go:219-223 | writing the value already stored changes nothing |
| `TreeOps.DeleteWF` | trie/trie.go:312-419 | deletion keeps the trie well formed: short nodes are merged and full nodes with one child collapse |
| `TreeOps.DeleteLookup` | trie/trie.go:312-419 | deletion unsets one key and leaves every other key alone |
| `TreeOps.DeleteAbsent` | trie/trie.go:312-419 | deleting an absent key changes nothing |
| `TreeOps.SplitLookup` | trie/trie.go:239-259 | a split short node reads as both of its halves |
| `TreeOps.ReduceWF` | trie/trie.go:372-392 | replacing a full node by its last child keeps the trie well formed |
| `TreeOps.ReduceLookup` | trie/trie.go:372-392 | a full node with one child reads as the short node that replaces it |
| `Nodes.ExpandStored` | trie/hasher.go:174-229 | storing a well-formed tree and expanding the stored form gives the tree back, whichever nodes are inlined |
| `Nodes.RootHashInjective` | trie/hasher.go:174-229 | equal root hashes mean equal content |
| `Nodes.ResolveSound` | trie/trie.go:428-445 | a loaded node stands for the same tree as its hash, with right cached hashes and everything below it available |
| `Nodes.DecodeCoherent` | trie/trie.go:435-445 | a decoded node carries no wrong cached hash |
| `NodeOps.TryGetSound` | trie/trie.go:142-178 | a lookup through any mix of loaded and unloaded nodes answers as the tree does; loading on the way changes neither the tree nor a cached hash |
| `NodePaths.GetMisses` | trie/trie.go:142-178 | a lookup reports a missing node exactly when a node on the path of the key, and no other, is not in the database |
| `NodePaths.GetLoads` | trie/trie.go:142-178 | after a lookup the whole path of the key is loaded, so that the next one needs no database |
| `NodePaths.InsertMisses` | trie/trie.go:218-288 | an insertion reports a missing node exactly when a node on the path of the key is not in the database |
| `NodePaths.DeleteMisses` | trie/trie.go:312-419 | a deletion reports a missing node exactly when a node on the path is missing, or the entry that a full node on the path would collapse onto |
| `NodePaths.AtIsLookup` | trie/trie.go:142-178 | the position of a key leads to a value exactly when the tree holds it |
| `NodeOps.InsertSound` | trie/trie.go:218-288 | insertion on partly loaded nodes refines insertion on trees, keeps cached hashes right, reports itself clean exactly when the value was already stored, and never misses an available node |
| `NodeOps.DeleteSound` | trie/trie.go:312-419 | deletion on partly loaded nodes refines deletion on trees, keeps cached hashes right, reports itself clean exactly when the key was absent, and never misses an available node |
| `NodeOps.ReduceSound` | trie/trie.go:372-392 | the last child is loaded to see whether it is a short node, and merged as on trees |
| `NodeOps.ShrinkSound` | trie/trie.go:361-394 | a full node after a deletion collapses exactly when one child is left |
| `NodeOps.CountEntries` | trie/trie.go:361-371 | the child-counting loop finds the position of the only child, if there is only one |
| `Hasher.HashSound` | trie/hasher.go:77-119 | whatever is cached, dirty, unloaded or stored, hashing returns the reference computed from scratch, keeps the same content with right cached hashes, and, if nothing was missing, leaves nothing it refers to out of the database |
| `Hasher.HashKidsSound` | trie/hasher.go:124-169 | the same for the children of a full node |
| `Hasher.FinishSound` | trie/hasher.go:91-118 | storing a collapsed node, or inlining a small one, and caching its hash give the reference computed from scratch, the same content and right cached hashes |
| `Hasher.KnownHash` | trie/hasher.go:79-89 | an unloaded node, or one with a cached hash, is its own replacement; a clean one may be unloaded to its hash |
| `Hasher.HashChildren` | trie/hasher.go:145-163 | the loop over the children of a full node collapses and caches them in order |
| `Trie.GetSound` | trie/trie.go:133-140 | a lookup on whose path no node is missing answers with what the trie holds and leaves the path loaded; any other changes nothing, and in a whole trie there is none |
| `Trie.UpdateSound` | trie/trie.go:200-216 | an update with a value is insertion of the hex key, unless a node on its path is missing and nothing changes; a whole trie misses none and stays whole |
| `Trie.DeleteSound` | trie/trie.go:299-307 | the same for deletion, which may also miss the entry a full node collapses onto |
| `Trie.HashStepSound` | trie/trie.go:453-457 | hashing keeps the content and returns the root hash computed from scratch |
| `Trie.CommitStepSound` | trie/trie.go:461-481 | committing does so too, only adds to the database, and stores all of a whole trie |
| `Trie.StepRefines` | trie/trie.go:133-307 | every operation does to the trie what it does to a finite map, an empty value deleting, or meets a missing node and does nothing |
| `Trie.RunRefines` | trie/trie.go:133-481 | over any run of lookups, updates, deletions, hashes, commits and limit changes the trie represents the map of the operations that met no missing node, every cached hash stays right, and a whole trie misses none |
| `Trie.HashIsFingerprint` | trie/trie.go:453-481 | after any two runs from empty, root hashes are equal exactly when the maps are equal |
| `Trie.Trie.constructor` | trie/trie.go:96-112 | a new trie holds the empty map |
| `Trie.Trie.Open` | trie/trie.go:96-112 | a trie opened at a root that is in the database holds what that root stands for, whether or not its subtries are there |
| `Trie.Trie.New` | trie/trie.go:96-112 | fails exactly when a root that is not the empty one is missing from the database |
| `Trie.Trie.SetCacheLimit` | trie/trie.go:81-83 | the limit does not change what the trie holds |
| `Trie.Trie.TryGet` | trie/trie.go:133-140 | returns the stored value, or nothing; reports a missing node exactly when one on the path of the key is not in the database, and then changes nothing |
| `Trie.Trie.TryUpdate` | trie/trie.go:200-216 | sets or, for an empty value, unsets one key and no other; reports a missing node exactly when one it has to load is not in the database, and then changes nothing |
| `Trie.Trie.TryDelete` | trie/trie.go:299-307 | unsets one key and no other; reports a missing node exactly when one on the path, or the entry a full node collapses onto, is not in the database, and then changes nothing |
| `Trie.Trie.Hash` | trie/trie.go:453-457 | returns the root hash of the content |
| `Trie.Trie.Commit` | trie/trie.go:461-472 | returns the root hash, only adds to the database, and stores everything under the root of a whole trie |
| `TrieCache.HashIsKept` | trie/hasher.go:96-118 | after hashing the root knows the hash that was computed |
| `TrieCache.CommitLeaves` | trie/hasher.go:77-119 | a commit unloads the root exactly if it was clean and not marked for the cache limit of generations; else it stays in memory, clean, with its hash and its mark |
| `TrieCache.LeftAlone` | trie/node.go:75-77 | a written trie that is left alone stays in memory as long as its age in 16-bit generations does not exceed the limit, and is then unloaded |
| `TrieCache.KeptForLimit` | trie/trie.go:464-481 | a trie that was changed, committed and left alone is unloaded by the first later commit that makes more than the limit |
| `TrieCache.StepMarks` | trie/trie.go:133-419 | every lookup, update or deletion that leaves another root marks it with the current generation |
| `Listing.BelowSorted` | trie/iterator.go:307-343 | the pre-order listing is strictly increasing in path order |
| `Listing.LeafIsStored` | trie/iterator.go:157-177 | a listed leaf is a stored pair |
| `Listing.StoredIsLeaf` | trie/iterator.go:157-177 | a stored pair is a listed leaf |
| `Listing.TermIsLeaf` | trie/iterator.go:157-159 | the terminator marks exactly the paths of leaves |
| `Listing.PairsAbove` | trie/iterator.go:44-56 | the pairs among the listed entries at or above a key are exactly the stored pairs at or above it, each once, in increasing order |
| `TrieIterator.NodeIterator.constructor` | trie/iterator.go:134-141 | a new iterator has the whole listing to visit |
| `TrieIterator.NodeIterator.Next` | trie/iterator.go:221-238 | moves to the next entry of the listing, over the current subtree if told not to descend; an interrupted seek is resumed first, and then the next entry at or above its key is visited; if it fails nothing of what was coming is lost, and it stands at the end or in front of a node that cannot be loaded |
| `TrieIterator.NodeIterator.Advance` | trie/iterator.go:221-238 | fails only at the end or at a node that cannot be loaded, and then loses nothing |
| `TrieIterator.NodeIterator.Seek` | trie/iterator.go:240-256 | passes over exactly the entries below the start key; if a node cannot be loaded the entries at or above the key are all still coming |
| `TrieIterator.NodeIterator.SeekStep` | trie/iterator.go:240-256 | a subtree that cannot hold the key is passed over whole |
| `TrieIterator.NodeIterator.Peek` | trie/iterator.go:259-293 | finds the next entry of the listing without moving |
| `TrieIterator.NodeIterator.PeekChild` | trie/iterator.go:276-291 | pops finished frames until one has a child left |
| `TrieIterator.NodeIterator.NextChild` | trie/iterator.go:307-343 | finds the next child of the top frame and keeps what is left to visit |
| `TrieIterator.NodeIterator.Push` | trie/iterator.go:345-351 | pushing visits the head of what is left |
| `TrieIterator.NodeIterator.Pop` | trie/iterator.go:353-357 | popping leaves what follows the current subtree |
| `TrieIterator.NodeIterator.NextPair` | trie/iterator.go:44-56 | yields the next of the pairs that are coming, also after an interrupted seek, and ends only when no pair is left or a node cannot be loaded, with every pair still coming |
| `TrieIterator.NodeIterator.Drain` | trie/iterator.go:44-56 | a new iterator that seeks to a key and is asked for pairs until it has none gives exactly the stored pairs at or above the key, each once, in increasing order, if every node can be loaded; else it gives the first of them and the rest is still coming |
| `TrieIterator.NodeIterator.TakeAll` | trie/iterator.go:44-56 | what was taken and what is still coming is what was coming before |
| `DifferenceIterator.CompareLeaf` | trie/iterator.go:359-375 | two leaves that compare as equal are the same pair, and entries that compare as different are not the same leaf |
| `DifferenceIterator.EqualIsHeld` | trie/iterator.go:449-460 | an entry that compares as equal is held by the first trie if it is a leaf, and so is, if the nodes have hashes, everything under it |
| `DifferenceIterator.PassA` | trie/iterator.go:439-445 | an entry of the first trie that does not compare beyond can be passed: it is not the leaf looked for |
| `DifferenceIterator.SkipB` | trie/iterator.go:449-453 | stepping over an equal entry, with its subtree if it has a hash, passes nothing that is missing |
| `DifferenceIterator.Difference.constructor` | trie/iterator.go:386-393 | the first trie is stepped once and everything it holds is still ahead, also if the first node of a fresh iterator cannot be loaded |
| `DifferenceIterator.Difference.Next` | trie/iterator.go:423-463 | of the leaves passed over all are held by the first trie, also in the call in which it fails to load a node; the leaf produced is not held unless that trie failed; the entry produced is before the first trie or that trie counts as ended, and from then on nothing is passed over; when it stops, the second trie is at its end or in front of a node that cannot be loaded |
| `DifferenceIterator.Difference.Merge` | trie/iterator.go:437-462 | the merge loop keeps what is still missing |
| `DifferenceIterator.Difference.SkipEqual` | trie/iterator.go:449-460 | equal nodes, with their subtries if they have hashes, hold nothing that is missing, and both tries move on |
| `DifferenceIterator.Difference.MergeOne` | trie/iterator.go:437-462 | each of the three outcomes of a comparison keeps what is still missing and brings one of the tries forward |
| `DifferenceIterator.Difference.Drain` | trie/iterator.go:423-463 | asked for entries until there are none, it produces the pairs that are missing up to the call in which the first trie fails to load a node, and then all pairs of what is left of the second |
| `DifferenceIterator.Difference.Error` | trie/iterator.go:465-470 | an error is reported exactly when one of the two iterators stopped at a node that cannot be loaded |
| `DifferenceIterator.DifferenceOf` | trie/iterator.go:386-470 | two fresh iterators, drained through the difference to the end of the second: the result is exactly the pairs that the second trie holds and the first does not, each once, in increasing order, if and only if the first holds none of what was left when it failed to load a node; it is right if every node can be loaded, and whenever no error is reported at the end |
| `DifferenceIterator.MissingExactly` | trie/iterator.go:423-463 | the missing pairs of a first part and all pairs of the rest are the missing pairs exactly if the first trie holds no leaf of the rest |
| `DifferenceIterator.NowhereIsFirst` | trie/iterator.go:359-375 | an iterator that stands nowhere never compares as beyond, so it is stepped again |
| `UnreadableTrie.AllFrom` | trie/iterator.go:437-445 | if nothing of the first trie can be loaded, every pair of the second from the first missing one on is produced, whether the first trie holds it or not |
| `UnreadableTrie.Run` | trie/iterator.go:437-445 | a run over two small tries: the pair both of them hold is produced as missing, and an error is reported |
| `DifferenceIterator.AbsentPairs` | trie/iterator.go:423-463 | as pairs, what is produced is exactly what the second trie holds and the first does not |
| `NodeGraph.UnlinkOk` | trie/database.go:255-269 | removing a reference with its count keeps every count equal to the incoming references |
| `NodeGraph.CutOk` | trie/database.go:259-267 | removing a reference to a committed child changes no count |
| `NodeGraph.DropOk` | trie/database.go:270-283 | a node that nothing references and that references nothing can go |
| `NodeGraph.InsertOk` | trie/database.go:125-142 | inserting keeps all counts exact if and only if no cached node still references an earlier, committed node of that hash; the size grows by the node |
| `NodeGraph.LinkKeeps` | trie/database.go:220-232 | a new reference keeps all counts exact |
| `NodeGraph.LinkUnlink` | trie/database.go:214-262 | taking a reference away again gives the old graph back, counts included |
| `NodeGraph.AllLive` | trie/database.go:255-285 | with exact counts and no cycles every cached node is reached from an unreferenced one |
| `NodeGraph.GarbageExact` | trie/database.go:255-285 | what a cascade leaves is exactly what is still reachable |
| `NodeGraph.OnlyMetaRoot` | trie/database.go:255-285 | if everything is reached from the meta-root, it is the only unreferenced node |
| `NodeDatabase.Database.constructor` | trie/database.go:100-108 | a new cache holds just the meta-root |
| `NodeDatabase.Database.Node` | trie/database.go:158-169 | returns the cached blob, else the one on disk |
| `NodeDatabase.Database.Insert` | trie/database.go:125-142 | a cached hash is left alone; a new one is added, and the counts stay exact if and only if no dangling reference names it |
| `NodeDatabase.Database.Reference` | trie/database.go:220-232 | adds a reference, twice only from the meta-root, and keeps all counts exact |
| `NodeDatabase.Database.Dereference` | trie/database.go:235-252 | leaves exactly the nodes still reachable from unreferenced ones, with their blobs and references unchanged |
| `NodeDatabase.Database.DereferenceNode` | trie/database.go:255-285 | the cascade touches only nodes below the parent and keeps counts and total size exact |
| `NodeDatabase.Database.DereferenceChildren` | trie/database.go:278-281 | in any order, all references of a dying node are removed |
| `NodeDatabase.MetaRootKeepsExactly` | trie/database.go:235-285 | if everything was reachable from the meta-root, dropping a trie leaves exactly what still is |
| `NodeDatabase.Database.WriteBatch` | trie/database.go:472-479 | moves the batch to disk in order |
| `NodeDatabase.Database.CommitNode` | trie/database.go:459-481 | writes exactly what the node reaches, children before parents; no flush is visible to readers |
| `NodeDatabase.Database.Uncache` | trie/database.go:487-506 | takes exactly what the node reaches out of the cache and keeps the total size |
| `NodeDatabase.Database.Commit` | trie/database.go:392-456 | the written set equals the uncached set, children are written first, every lookup answers the same before and after, and the remaining counts stay exact |
| `StaleReference.Run` | trie/database.go:125-142 | for any two nodes: inserted, the one referenced by the other and that one by the meta-root, then the first committed and inserted again, it has a count of 0 while a cached node references it |
| `NodeCommit.CommitInvisible` | trie/database.go:392-456 | with the blobs written, neither the writes nor the uncaching can be noticed |
| `NodeCommit.MinusOk` | trie/database.go:487-506 | uncaching a whole trie keeps the counts of all other nodes exact |
| `NodeCommit.ReachMinus` | trie/database.go:487-506 | taking out whole subtries takes exactly their nodes out of what is reached |
| `SyncGraph.ScheduleSound` | trie/sync.go:238-247 | a counted dependency becomes a parent-list entry, and all counts stay exact |
| `SyncGraph.OweSound` | trie/sync.go:201-207 | counting or paying a dependency keeps the books |
| `SyncGraph.FinishSound` | trie/sync.go:313-321 | a stored request turns its parent list into payments owed |
| `SyncGraph.ReadyStored` | trie/sync.go:322-328 | a request without dependencies has all it needs stored |
| `SyncGraph.MovingExactly` | trie/sync.go:170-212 | with links going down, every pending request waits for data that has not arrived, directly or through others, exactly when no request is stuck: arrived, pending and waiting for nothing |
| `SyncGraph.WaitsForSome` | trie/sync.go:170-212 | from every pending request one reaches a pending request that has not arrived, or one that is stuck |
| `SyncState.Progress` | trie/sync.go:159-212 | every pending request waits for data that was asked for and has not arrived exactly when no pending request is stuck, and only a failed callback leaves a stuck request: without one a download cannot stall |
| `SyncState.ClosedExactly` | trie/sync.go:311-330 | no stored node leads out of what is stored exactly when none of those whose callback failed does |
| `SyncState.WholeTrie` | trie/sync.go:251-330 | all that one comes to from a root under its callback, which hash children inherit while sub-tries have their own, is stored exactly when the odd nodes met on the way have all they lead to stored |
| `SyncState.Complete` | trie/sync.go:231-233 | the same for the scheduler, with the root stored; what is stored decodes unless an undecodable blob was there at the start |
| `SyncState.CompleteOnce` | trie/sync.go:231-233 | a finished download is complete if no callback failed, no hash is met under two callbacks, and what was there at the start was complete |
| `SyncState.TracedAdds` | trie/sync.go:271-307 | what is asked for on behalf of a node is met from it under the callback it is asked for with |
| `SyncState.TracedStored` | trie/sync.go:313-330 | every stored node was fetched under a callback that leads to it from the root |
| `SyncState.FailInv` | trie/sync.go:285-291 | a request whose callback failed is kept aside, and everything else about the scheduler stays sound |
| `SyncState.PutFirstClosed` | trie/sync.go:216-228 | after every single write no node of the database leads out of it, but for those a failed callback left behind |
| `SyncState.PartlyInv` | trie/sync.go:216-222 | any number of writes, with the batch still in memory, keeps the scheduler sound and the same hashes settled |
| `SyncState.FinishInv` | trie/sync.go:313-321 | a node whose callback did not fail is appended only after all its hash children, and all sub-tries its callback added, are stored or appended |
| `SyncState.FlushInv` | trie/sync.go:216-228 | writing out keeps the scheduler sound and the same hashes settled |
| `StateSync.Sync.constructor` | trie/sync.go:82-91 | a sync starts with exactly its root asked for, unless it is there |
| `StateSync.Sync.AddSubTrie` | trie/sync.go:94-123 | a sub-trie is asked for with its own depth and callback unless it is there, its parent waits for it, nothing else is asked for, and no other request gets stuck or freed |
| `StateSync.Sync.ScheduleRequest` | trie/sync.go:238-247 | a hash enters the queue once; later requests only add parents |
| `StateSync.Sync.Missing` | trie/sync.go:159-165 | hands out the number of entries asked for, deepest first, each hash once; what is handed out and what stays is the old queue |
| `StateSync.Sync.Pop` | trie/sync.go:159-165 | takes an entry of greatest depth off the queue |
| `StateSync.Sync.Children` | trie/sync.go:251-308 | collects exactly the hash children that are not stored and shows the values to the callback, up to the first one it fails on; only the sub-tries it adds are asked for |
| `StateSync.Sync.Process` | trie/sync.go:170-212 | keeps all invariants whatever is delivered, also that every request has a callback that leads to it from the root, stops at the first refused item or failed callback, has kept the data of all items before it, tells exactly whether anything was stored, and leaves exactly the same requests stuck, but for one whose callback failed |
| `StateSync.Sync.ProcessOne` | trie/sync.go:173-209 | classifies a delivery exactly, a failing callback included; a refused one changes nothing, an accepted one is kept with its data and asks for exactly the sub-tries its callback adds, with the depth and callback named for them, and then the hash children that are not there, with its own callback and its depth and their step, a hash asked for twice keeping the first, one whose callback fails keeps its data, asks for nothing but sub-tries and is stuck exactly when none of these is still to be fetched, nothing delivered before is lost, only what was requested is stored, only this node needs more than before, and exactly the same requests stay stuck but for one whose callback fails |
| `StateSync.Sync.CommitRequest` | trie/sync.go:313-330 | stores a ready request and every parent that thereby becomes ready, each with its own data and nothing else, and ends |
| `StateSync.Sync.Commit` | trie/sync.go:216-228 | writes the batch in completion order; a failed write leaves exactly the writes before it in the database, the batch in memory and the scheduler sound |
| `StateSync.Sync.Done` | trie/sync.go:231-233 | nothing pending: the root is stored, and so is all one comes to from it under its callback exactly when the odd nodes met on the way have all they lead to stored; so always if no callback failed, no hash is met under two callbacks and the start was complete |
| `FailedCallback.Stall` | trie/sync.go:280-287 | a run that stalls: the root is delivered, its callback fails, nothing is left to ask for, a second delivery is refused, and the root stays pending |
| `FailedCallback.Incomplete` | trie/sync.go:280-330 | a run that ends incomplete: the callback of the root adds a sub-trie and fails; when the sub-trie arrives the root is stored too, nothing is pending, and a hash child of the root is nowhere, so a path from the root leads out of the store |
| `FailedCallback.Undecodable` | trie/sync.go:288-297 | a run that ends with a blob that is no node below the root: it was in the database under the hash of a child, so nothing is asked for |
| `SharedNode.Inherits` | trie/sync.go:298-305 | a run in which the callback of the root is passed on to its child, and the sub-trie it adds there is asked for |
| `SharedNode.LosesSubTrie` | trie/sync.go:238-247 | a run that ends with nothing pending and no callback failed, without a sub-trie that the callback of the root leads to, because a node was asked for under another callback first |
| `Ledger.RunBalance` | core/dag.go:663-683 | in any order, an account ends with its balance less what it sent plus what it got |
| `Ledger.NeverOverdrawn` | core/dag.go:663-683 | if each account can pay for all it sends, none is overdrawn at any point of any order |
| `Ledger.Conserved` | core/dag.go:663-683 | no sequence of transactions changes the sum of all balances |
| `Ledger.RunNonce` | core/dag.go:663-668 | the nonce ends at the largest of the old one and those processed |
| `Batches.WalkAffordable` | core/tx_pool.go:714-748 | walking a batch takes from no account more than its recorded outcome |
| `Batches.LedgerSafe` | core/dag.go:531-557 | for every order of walking an accepted batch, no balance goes below zero at any point and the sum of balances is conserved |
| `Batches.LedgerExact` | core/dag.go:531-557 | every account ends at its balance less outcome plus income of the elders processed, which with distinct sender/nonce pairs are all elders |
| `Batches.OneTwin` | core/tx_pool.go:714-748 | of the elders that share a sender and a nonce exactly one is confirmed |
| `Batches.WalkAllExactly` | core/tx_pool.go:714-748 | all normal elders are confirmed if and only if no two of them share a sender and a nonce |
| `Batches.StaysContinuous` | core/tx_pool.go:835-866 | accepted nonces extend the account's gap-free interval and repeat none |
| `Nonces.HeapPush` | core/account_flow.go:236-238 | pushing keeps the heap and adds exactly one nonce |
| `Nonces.Tail` | core/account_flow.go:225-228 | sorting the heap gives its largest nonce last |
| `Nonces.VerifyNonce` | core/tx_pool.go:835-866 | accepts exactly nonces that continue the account's without a gap, with the sequencer's next if it is the same account |
| `BatchBuilder.Put` | core/account_flow.go:273-279 | a nonce that is taken is ignored; otherwise list and heap get it |
| `BatchBuilder.Build` | core/tx_pool.go:714-748 | in any order of elders, the batch has each address's total outcome, income and nonces; refuses a sequencer that shares a nonce with an elder |
| `BatchBuilder.CheckDetail` | core/tx_pool.go:751-764 | accepts an address exactly when it can pay and its nonces are right |
| `BatchBuilder.VerifyConfirmBatch` | core/tx_pool.go:710-783 | accepts exactly when no elder has the sequencer's nonce, every touched address can pay for the elders it sent, and every sender's nonces continue without a gap |
| `AccountFlows.AccountFlow.TrySubBalance` | core/account_flow.go:200-209 | spends if and only if the balance covers it |
| `AccountFlows.AccountFlow.Add` | core/account_flow.go:135-146 | a new nonce that the balance covers joins; spending stays the sum of the listed values and within the balance |
| `AccountFlows.AccountFlow.LatestNonce` | core/account_flow.go:164-177 | returns the largest nonce of the flow |
| `Dag.PushedGapFree` | core/dag.go:519-557 | every accepted push keeps the nonces of the confirmed transactions of every account that issues no sequencer one interval from 0 or 1 up to its current nonce, each used by the one transaction that is found by it, and reuses none |
| `Dag.PushedFound` | core/dag.go:641-657 | a push keeps every transaction of an account that issues no sequencer the one found by its sender and nonce |
| `Dag.UsedAfter` | core/dag.go:519-557 | the nonces of an account's confirmed transactions after a push are those before and those of the batch |
| `Dag.PushedIndexed` | core/dag.go:641-657 | a push keeps the indexes: every confirmed transaction is found by its hash, and by a sender and nonce a transaction of that sender and nonce is found |
| `Dag.PushedHeights` | core/dag.go:519-606 | no confirmation is above the latest height |
| `Dag.PushedSolvent` | core/dag.go:519-557 | every accepted push keeps all balances non-negative and their sum |
| `Dag.HeightStays` | core/dag.go:519-557 | a transaction whose sender reuses no nonce keeps its confirmation height |
| `Dag.ConfirmAllTxs` | core/dag.go:531-557 | exactly the batch is confirmed at the given height |
| `Dag.StartOk` | core/dag.go:117-156 | the chain after genesis is indexed, solvent and gap-free |
| `Dag.Store.constructor` | core/dag.go:117-156 | the chain starts with its genesis and the given balances |
| `Dag.Store.GetTx` | core/dag.go:218-224 | reading through the cache is reading the database |
| `Dag.Store.Cache` | core/dag.go:780-791 | the cache stays within its size by forgetting its oldest entry, lists its keys once, and agrees with the database |
| `Dag.Store.WriteTransaction` | core/dag.go:641-657 | indexes a transaction by hash and by sender and nonce |
| `Dag.Store.ProcessTransaction` | core/dag.go:663-683 | moves the nonce up and the value from sender to receiver |
| `Dag.Store.PushBatch` | core/dag.go:531-557 | whatever the order of addresses, each listed transaction is confirmed once |
| `Dag.Store.Push` | core/dag.go:519-613 | refuses a sequencer that is not next and changes nothing; else confirms the batch and then the sequencer, exactly these at its height, which is then the latest |
| `Dag.PushedTxs` | core/dag.go:531-613 | a push confirms the batch and the sequencer at the sequencer's height, and nothing else changes |
| `Dag.PushedNumbered` | core/dag.go:519-613 | a push keeps the sequencers numbered: the k-th has height k and is on the ledger at that height |
| `PoolState.EnterInv` | core/tx_pool.go:416-440 | whatever a new transaction is judged to be, entering it keeps the pool invariant: order lists the lookup once, tips, bad and pending agree with statuses, tips are exactly the good transactions no good one names, parents of good ones are good or confirmed, spending is the sum of good values and covered, pairs are unused |
| `PoolState.EnterFrontier` | core/tx_pool.go:516-540 | after entering, a good transaction is a tip exactly when no good transaction names it |
| `PoolState.EnterFlows` | core/tx_pool.go:541-546 | after entering, every account's spending is that of its good transactions and within its confirmed balance |
| `PoolState.NoncesDistinct` | core/tx_pool.go:572-587 | no two good pooled transactions use one nonce of one sender |
| `PoolState.JudgedExactly` | core/tx_pool.go:554-613 | a new transaction is good exactly when every parent is live in the pool or else confirmed, its nonce is used by no good or confirmed transaction of the sender, and the confirmed balance pays for it and all the sender has pooled; bad and fatal likewise |
| `PoolState.EnterArrives` | core/tx_pool.go:981-988 | whatever enters is listed last, and the others keep their order |
| `PoolState.EnterArrival` | core/tx_pool.go:500-552 | a good parent is always listed before its good child |
| `PoolSteps.ShelveStep` | core/tx_pool.go:516-540 | moving parents one by one is moving all of them at once, duplicates included |
| `PoolSteps.EnterAllInv` | core/tx_pool.go:819-832 | re-entering distinct transactions one after the other keeps the invariant |
| `PoolSteps.EnterAllJudged` | core/tx_pool.go:819-832 | every re-entered transaction ends as it was judged after those before it: gone if fatal, bad if bad, a tip or pending if good |
| `PoolSteps.EarlierIsThere` | core/tx_pool.go:819-832 | who is re-entered later is judged in a pool that holds whoever came before and stays |
| `PoolSteps.EnterAllOrder` | core/tx_pool.go:819-832 | what is re-entered and stays is listed in the order it was re-entered |
| `PoolSteps.SeqEntersInv` | core/tx_pool.go:644-650 | adding the confirmed sequencer to flows and tips keeps the invariant |
| `ElderSearch.SeekElders` | core/tx_pool.go:675-706 | ends, and finds exactly the pooled transactions reached through pooled parents; fails exactly when something reached is neither pooled nor confirmed |
| `ElderSearch.Append` | core/tx_pool.go:698-703 | queues exactly the parents not seen before |
| `Confirmation.EnterOk` | core/tx_pool.go:416-440 | every transaction event keeps pool and ledger healthy |
| `Confirmation.ConfirmOk` | core/tx_pool.go:616-662 | every accepted sequencer keeps pool and ledger healthy |
| `Confirmation.PastLeaves` | core/tx_pool.go:788-833 | after an accepted sequencer nothing of its past is in the pool, and nothing new is |
| `Confirmation.PastConfirmed` | core/tx_pool.go:616-662 | the whole normal past of an accepted sequencer is confirmed at its height if and only if no two transactions of that past share a sender and a nonce |
| `Confirmation.TwinsLost` | core/tx_pool.go:714-748 | of the transactions of the past that share a sender and a nonce exactly one is confirmed at the sequencer's height; the others leave the pool without being confirmed |
| `Confirmation.RestRejudged` | core/tx_pool.go:788-833 | the transactions judged again are exactly the normal ones outside the past, in the order the old pool lists them; each is judged on the new ledger, in the pool made of those before it, stays with that judgement unless it is fatal, and those that stay keep their order |
| `Confirmation.RestUnique` | core/tx_pool.go:806-818 | there is one such list |
| `Confirmation.ParentComesFirst` | core/tx_pool.go:806-832 | a good parent that stays is judged again before its good child |
| `Confirmation.OnlySeqListed` | core/tx_pool.go:644-648 | after a confirmation the sequencer is the only one listed in a flow |
| `Confirmation.MovesNumbered` | core/dag.go:519-613 | accepted sequencers are numbered without a gap, each on the ledger at its height |
| `LostTwin.IsAcceptable` | core/tx_pool.go:616-635 | a pool with a good and a bad transaction of one sender and nonce, and a sequencer with both in its past: the sequencer is accepted |
| `LostTwin.OneIsLost` | core/tx_pool.go:616-662 | then, however the batch is built, exactly one of the two reaches the ledger and none stays in the pool |
| `LostTwin.Run` | core/tx_pool.go:416-452 | the pool is reached from the genesis by adding the two transactions, and adding the sequencer loses one of them |
| `Confirmation.HeightKept` | core/dag.go:519-557 | a confirmed transaction of an account that issues no sequencer keeps its height through every later confirmation |
| `Confirmation.SequencerHasNoStatus` | core/tx_pool.go:642-650 | a confirmed sequencer is a tip and on the ledger, but not in the lookup |
| `TxPool.Pool.constructor` | core/tx_pool.go:171-183 | the genesis is the first tip and the only entry, and the state is healthy |
| `TxPool.Pool.IsBadTx` | core/tx_pool.go:554-613 | judges in the order of the checks: parents, pooled nonce, confirmed nonce, value, total spending |
| `TxPool.Pool.RemoveFromFront` | core/tx_pool.go:998-1022 | takes a hash out of order and lookup, searching from the front |
| `TxPool.Pool.RemoveFromEnd` | core/tx_pool.go:998-1022 | takes a hash out of order and lookup, searching from the end |
| `TxPool.Pool.MoveParents` | core/tx_pool.go:516-540 | named tips become pending and named sequencers leave |
| `TxPool.Pool.FlowsAdd` | core/tx_pool.go:541-546 | opens the sender's flow with its confirmed balance if needed and adds the transaction |
| `TxPool.Pool.Commit` | core/tx_pool.go:500-552 | files a queued transaction by its quality; a fatal one leaves no trace |
| `TxPool.Pool.AddTx` | core/tx_pool.go:416-440 | one transaction event: a duplicate changes nothing, a transaction is refused exactly when it is fatal and changes nothing, is filed as bad exactly when it is bad and else becomes a tip, is listed last, and the state stays healthy |
| `TxPool.Pool.SolveConflicts` | core/tx_pool.go:788-833 | everything that is no elder is judged again, in the order it came, on the new ledger |
| `Confirmation.RestOf` | core/tx_pool.go:806-818 | what is judged again is the part of the list of the pool outside the past |
| `TxPool.Pool.Prepare` | core/tx_pool.go:616-635 | succeeds exactly when the sequencer is acceptable but for its height; then the elders are exactly its past and their batch is accepted |
| `TxPool.Pool.JoinTips` | core/tx_pool.go:644-650 | the sequencer joins its sender's flow and the tips, and gets the tip status if it is still in the lookup |
| `TxPool.Pool.Confirm` | core/tx_pool.go:616-662 | confirms a queued sequencer exactly when it is acceptable, and else leaves pool and ledger alone; the new pool is exactly what rejudging the rest on the new ledger gives |
| `TxPool.Pool.Proceed` | core/tx_pool.go:636-662 | a verified batch is pushed unless the sequencer is not the next one, and the pool is then rejudged |
| `TxPool.Pool.AddSeq` | core/tx_pool.go:416-452 | one sequencer event: it is accepted exactly when it is new, its nonce is unused, its past is known, the batch of its past is confirmable and it is the next one; refused, it changes nothing; accepted, its past leaves the pool, the batch of that past is confirmed, and the rest of the pool is exactly what rejudging it in its order on the new ledger gives; the state stays healthy; the k-th accepted sequencer has height k and stays on the ledger at that height |
| `MessageCodes.SortCaps` | p2p/protocol.go:87-93 | capabilities are sorted by name and version, and none is lost |
| `MessageCodes.MatchProtocols` | p2p/peer.go:297-319 | one protocol per shared name, in the highest common version, placed after the protocols of smaller names |
| `MessageCodes.Place` | p2p/peer.go:306-312 | a newer version takes the place of the older one |
| `MessageCodes.EndsAgree` | p2p/peer.go:297-319 | if shared protocols have equal lengths, both ends compute the same layout |
| `MessageCodes.NoOverlap` | p2p/peer.go:351-358 | no two protocols hold one code |
| `MessageCodes.NoGap` | p2p/peer.go:351-358 | every code from the base length to the total is held |
| `MessageCodes.GetProto` | p2p/peer.go:351-358 | finds a protocol holding the code if there is one |
| `MessageCodes.Routed` | p2p/peer.go:351-358 | the codes that are routed are exactly those after the base protocol and below the total, if and only if the total fits into a word |
| `MessageCodes.RoundTrip` | p2p/peer.go:370-397 | a code written by a protocol at one end is routed to the same protocol, and only to it, at the other end, which reads the same code |
| `Dialer.Expire` | p2p/dial.go:421-425 | exactly the expired entries leave the history |
| `Dialer.Contains` | p2p/dial.go:413-420 | tells whether the history has an entry of the node |
| `Dialer.Forget` | p2p/dial.go:404-412 | exactly the node's entry leaves the history |
| `Dialer.DialState.constructor` | p2p/dial.go:130-146 | a new scheduler has dialed nothing, and its static nodes are the given ones, the last of each id |
| `Dialer.DialState.CheckDial` | p2p/dial.go:267-282 | gives the first objection to dialing a node, if any |
| `Dialer.DialState.Needed` | p2p/dial.go:181-192 | the budget less dynamic peers and dynamic dials |
| `Dialer.DialState.AddDial` | p2p/dial.go:168-178 | dials a node nothing speaks against and keeps the budget |
| `Dialer.DialState.DialStatics` | p2p/dial.go:197-209 | static dials take nothing from the budget, and every static node is tended or, if hopeless, removed |
| `Dialer.DialState.DialStatic` | p2p/dial.go:197-209 | a static node is removed if it can never be dialed, and else ends up dialing, connected or recently dialed |
| `Dialer.DialState.DialBootnode` | p2p/dial.go:210-221 | only without peers, after the fallback interval and with room left, the first bootnode goes to the end of the list and is dialed if nothing speaks against it |
| `Dialer.DialState.DialRandom` | p2p/dial.go:222-232 | at most half of the dials needed go to random nodes |
| `Dialer.DialState.DialLookups` | p2p/dial.go:233-241 | lookup results are tried in order until nothing more is needed; exactly the tried ones leave the buffer |
| `Dialer.DialState.NewTasks` | p2p/dial.go:162-257 | all dials of a round go to different nodes that are not dialing, not connected, not this node, not excluded and not dialed in the last 30 seconds; the distinct nodes dynamically dialing or connected stay within the budget; every static node is tended, room is left only if no candidate is and then a lookup runs, and no round without tasks leaves the loop waiting for nothing; static dials go to static nodes and dynamic ones to a bootnode after a while without peers, random nodes for half of the need, or lookup results; a lookup task is handed out exactly when one is started, and a timer for the entry that expires first exactly when nothing else is going on |
| `Dialer.DialState.Begin` | p2p/dial.go:163-194 | the start time is set once, the history expires, and the room left is counted |
| `Dialer.DialState.Fillers` | p2p/dial.go:242-255 | a lookup is launched exactly when candidates are short and none runs, and a timer with the least remaining time of the history exactly when nothing else is going on |
| `Dialer.DialState.DialDone` | p2p/dial.go:284-288 | a finished dial is remembered for 30 seconds |
| `Dialer.DialState.LookupDone` | p2p/dial.go:289-292 | lookup results join the buffer |
| `Dialer.DialState.AddStatic` | p2p/dial.go:148-152 | a static node replaces its entry |
| `Dialer.DialState.RemoveStatic` | p2p/dial.go:154-160 | a removed static node may be dialed again at once |
| `Dialer.DialState.AddPeer` | p2p/server.go:701-722 | a peer that was dialing dynamically does not count twice |
| `Dialer.DialState.DropPeer` | p2p/server.go:730-740 | a dropped peer frees its place |

## Left out

- Node byte codec (`trie/node_gen.go`): nodes are stored as trees of blobs instead of bytes, and decoding is the inverse of that.
- Merkle proofs and the parent hashes an iterator reports: both only read nodes on one path.
- The union iterator: a merge of several iterators with a heap; of the merging iterators the difference iterator is modelled.
- Secure-key preimages: a second map beside the nodes that no trie operation reads.
- The flush list and `Cap` of the node cache: their upkeep does not touch counts, blobs or children.
- Disk errors in the node cache and the pool: writes succeed there.  A failing write is modelled in `StateSync.Sync.Commit` only.
- Locks and goroutines: each locked section is one atomic step.
- Raw entries of the sync scheduler (`AddRawEntry`): a raw entry and a trie node of one hash would share a request.
- StateSync.Sync.Commit: writes into the database the scheduler reads; a different target is not modelled.
- TrieIterator.NodeIterator.Next: works on the expanded content of the trie, with `loads` telling which nodes can be loaded; the loaded node is not written back, as in the code.
- DifferenceIterator.Difference.constructor: when the first iterator is already under way and its step in the constructor fails, nothing is promised about what `Next` leaves out.
- NodeDatabase.Database.Dereference: the reference exists, as the comment on the code asks; for a missing one the code counts down to -1 and is not modelled.
- Trie.Trie.New: the zero hash, which the code takes for the empty root, is the same value here.
- Trie.Trie.Commit: the leaf callback and the child references that the code registers in the node cache are not modelled; `NodeDatabase` takes references as its input.
- NodeDatabase.Database.Commit: the preimages written in the same batch are not modelled.
- Dag.Store.Push: receipts, the index of sequencers by height and the stored list of batch hashes are not modelled.
- AccountFlows.AccountFlow.Add: the pool keeps flows as values and adds to them with the function this method is proved against.
- Contract data, the virtual machine, gas, receipts, signatures and mining: transactions carry no data.
- `TxPool.Remove`, `AccountFlow.Remove` and `TryRemoveValue`: not reached by the event loop on pooled good transactions.
- Subscribers, tip selection, weights and transaction counts of the pool.
- Nonces, heights and balances are unbounded numbers; Go's 64-bit nonces and heights wrap around.
- Nonces.Tail: sorts a copy; the Go code sorts the shared slice.
- BatchBuilder.CheckDetail: does not keep the sorted order of the nonces, because every order is covered.
- MessageCodes.SortCaps: sorts a copy by insertion; the Go code sorts in place with the standard library.
- Dialer.Expire: the history is a list whose least entry is taken; the heap of the standard library is not modelled.
- Resolving nodes, connecting, handshakes and encryption: which peers join and when is up to the caller of `AddPeer`, a dynamic peer joining while its dial runs.
- The block, transaction buffer, synchroniser, RPC, configuration and metrics code.
