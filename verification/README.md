# Verified models of the Silo storage engine and the HERD key-value server

The project models the concurrent and structural core of two systems and proves what they
promise:

* Silo's transactions: the optimistic commit protocol, the per-tuple reads it rests on,
  multi-version tuples, and the locking of the write set;
* Silo's index: the layered B+-tree, its leaf arrays, its row of leaves and its range scans;
* Silo's memory: epochs and deferred deletion, the queue of deferred deletions, the slab
  allocator and the ring buffer;
* HERD: the lossy index over a circular log with its two-stage pipeline, the request
  windows between clients and servers, and the two together.

Protocols are state machines: `Enabled` and `Apply` give one step, `Run` a whole run from a
starting state, and every theorem about a protocol is about every run.  Code that updates
objects and arrays in place is written with classes, arrays and loops, and is proved against
functions on values.

## How the pieces fit

* `CommitModel` is the commit protocol, one step for each access to shared memory.
  `CommitInvariant`, `CommitLocal`, `CommitOwn`, `CommitOrder` and `CommitKeeps` build its
  invariant; `Serializability` and `Deadlock` hold the theorems.  The serial order is the
  order in which transactions hold all their write locks.
* Two things that the protocol takes as single steps are justified in modules of their own.
  `Seqlock` shows that a tuple read, made of many small loads, returns what held at one
  moment.  `WriteSet` shows that the sort-and-group loop of commit locks each tuple once, in
  address order, and flags exactly the records whose locks the protocol releases.
* `TupleHistory` is the chain of versions as data, and `Tuple` the tuples that keep it.
* `BTree`, `BTreeInsert` and `BTreeRemove` are one layer as a value.  `BTreeKeys` and
  `BTreeLayers` put layers together into a map from byte strings.  `BTreeArrays` and
  `BTreeSiblings` are the leaves as arrays, proved against the value model.  `BTreeRow` is
  the row of leaves, `BTreeLinks` the pointers that thread it and `BTreeScan` the scan over
  it.
* `HerdStore` is one HERD server, `HerdWindow` the traffic between clients and servers, and
  `HerdService` carries the one over the other.
* `Common` and `Arithmetic` hold what several models share.

## Decisions

* Every lock that transactions take is taken with write intent, so the commit model has one
  field, `owner`, for both bits.
* The release loops of commit and of an abort after commit began walk the sorted write
  infos; an abort before commit walks the write set.  The commit model walks the write set
  in both cases.  The records that carry a lock are the same, and their order does not
  matter to what is proved.
* `gen_commit_tid` is not part of this model.  What the commit model needs of it is a guard:
  a tid strictly between `MIN_TID` and `MAX_TID` and above the version of every tuple locked.
  A read of a tentative insert records tid 0, so a commit tid of 0 would not do.
* `can_read_tid` and `can_overwrite_record_tid` are not part of this model; their answers are
  arbitrary inputs.
* The index of the commit model is a fixed partition of the keys into versioned nodes.
* Memory is sequentially consistent, and counters are unbounded.
* The number of keys in a node is any number above 10, which is all the source asks for.
* Removing from the tree never turns a layer back into a value, as in the source.
* HERD's request is copied when it enters the pipeline; that its slot is not rewritten until
  it has been answered is `HerdWindow.SlotIsFree`.
* The circular log of HERD holds whole records; memory that no record was written to
  matches no key.
* A PUT or GET whose key has tag 0 is modelled like any other.  The promise about GETs holds
  exactly for keys whose tag is not 0: `HerdStore.TagZeroReadsStale` shows how every key
  with tag 0 can be served a stale value.  The shipped client draws no such key, because the
  last byte of its keys is never 0 (HERD/common.c:379).
* A GET may fail although its key was PUT: the index is lossy by design.
  `HerdStore.ServedExactly` says when it does not.
* A snapshot read promises the full history only if no overwrite straddles the snapshot;
  for tids that strictly climb, `TupleHistory.ServedIffNotStraddled` says that this is exact.
* The comment at silo/btree_impl.h:1191 doubts that a key which stays in the old leaf
  belongs at or before the split point.  `BTreeInsert.StaysLeft` proves that it does.

## Model

| member | source | states |
|---|---|---|
| `Serializability.Serializable` | silo/txn_impl.h:278-457 | After any interleaving, the transactions that passed validation, run one after another in lock-point order on an empty reference database, read exactly what they read in the run: the same value for every tuple and nothing under every key found absent. |
| `Serializability.NoPhantoms` | silo/txn_impl.h:370-383 | A key that a validated transaction found absent is absent from the reference database at its place in the serial order, although its own inserts bump the node versions it recorded. |
| `Serializability.FinalContents` | silo/txn_impl.h:386-457 | When nobody is in flight, the tuples reachable through the index hold exactly what the serial run leaves. |
| `Serializability.FinishedHoldsNothing` | silo/txn_impl.h:442-488 | On every exit, commit or abort, a transaction holds no lock on any tuple, although the exit only tests that its loop has seen every write record. |
| `Serializability.ReleaseIsExact` | silo/txn_impl.h:442-480 | Throughout the release loop of either exit, the tuples a transaction holds are exactly those with a lock-carrying record ahead of the cursor, one each: every step releases a lock of its own, and none is missed or released twice. |
| `Serializability.FlagsAreTheLoops` | silo/txn_impl.h:192-228 | In every reachable state there is a record at which the sorted locking loop would have stopped such that the flags it leaves mark exactly the records that carry locks in the protocol. |
| `Serializability.AbortedInsertsGone` | silo/txn_impl.h:81-104 | No index entry ever leads to a tuple that an aborted transaction inserted. |
| `Serializability.RealTimeOrder` | silo/txn_impl.h:278-330 | The serial order respects real time: past the lock point now means before everybody who reaches it later. |
| `Serializability.OrderGrows` | silo/txn_impl.h:278-330 | The serial order of a run extends that of each of its prefixes. |
| `Serializability.WriteSetReady` | silo/txn_impl.h:500-561 | In every reachable state, the insert of a tuple comes first among the writes to it, which is what the locking loop relies on. |
| `Serializability.SerialIsReference` | silo/txn_impl.h:386-457 | The last write of a key among the validated transactions is what a database that applies their write sets in order holds. |
| `CommitKeeps.RunKeepsInv` | silo/txn_impl.h:232-498 | The invariant of the commit protocol (locks, pending and applied writes, reads, absent keys, serial order) holds after every run. |
| `CommitKeeps.ActKeepsInv` | silo/txn_impl.h:232-498 | Each action of each transaction keeps that invariant. |
| `CommitKeeps.ReadSawSerial` | silo/tuple.h:770-795 | A read that validates saw the last serial write of its key, and nobody ordered earlier still has that key to apply. |
| `CommitKeeps.MissSawSerial` | silo/txn_impl.h:370-383 | A key found absent whose node validates has no serial value. |
| `CommitKeeps.WritersKept` | silo/txn_impl.h:287-323 | Of two transactions ordered by their lock points that write one key, the earlier is through with that key. |
| `CommitKeeps.ContentKept` | silo/txn_impl.h:386-440 | While nobody has a key still to apply, its content is its serial value. |
| `CommitKeeps.OverwritesKept` | silo/tuple.h:770-795 | A write applied by a transaction later in the order makes every read of that key that is still to be validated fail. |
| `CommitLocal.Guarantee` | silo/txn_impl.h:192-228 | What any action may do to shared memory: another's locked tuples stay untouched, tids only grow, node versions grow with every insert. |
| `CommitLocal.Rely` | silo/txn_impl.h:192-228 | Such steps of others leave a transaction's own invariant intact. |
| `CommitOwn.OwnLocks` | silo/txn_impl.h:278-457 | Each action keeps what its own transaction holds, has to apply and has applied. |
| `CommitOwn.OwnAbsent` | silo/txn_impl.h:545-561 | Each action keeps the meaning of the absent set, including when the transaction's own insert bumps a node it recorded. |
| `Deadlock.NoWaitCycle` | silo/txn_impl.h:192-228 | In no reachable state does a chain of transactions, each waiting for the next in commit locking or in a read, come back to its start. |
| `Deadlock.SomeoneCanMove` | silo/tuple.h:680-739 | While a transaction is unfinished, some unfinished transaction waits for nobody. |
| `Deadlock.WaitingClimbs` | silo/txn_impl.h:287-323 | Along a chain of waits the address waited for climbs, since nobody waits for a tentative insert. |
| `Seqlock.StableReadIsAtomic` | silo/tuple.h:680-739 | Against a writer that changes header, version, size, bytes and next one at a time, a read that returns gives version, size and bytes that held together at one moment with no update in progress, with and without write intent allowed. |
| `Seqlock.ValidationIsAtomic` | silo/tuple.h:777-795 | A validation that succeeds found the tuple latest, not locked for writing and not newer than the read, all at one moment. |
| `Seqlock.RunKeepsInv` | silo/tuple.h:343-407 | What the reader has collected so far stays right while the header it started from is current. |
| `WriteSet.LockWrites` | silo/txn_impl.h:278-323 | The sorted, grouped locking loop locks every tuple that is not an own insert once, in address order, until one cannot be had; it succeeds exactly when all can; on success the marked records are the inserts and the last write to each tuple. |
| `WriteSet.LockLoop` | silo/txn_impl.h:297-323 | At every exit the flags say exactly which tuples are held, and a failure names a tuple that could not be had. |
| `WriteSet.HandleLast` | silo/txn_impl.h:192-228 | What is locked, flagged and marked at the end of a run of one tuple, in each of its four outcomes. |
| `WriteSet.Release` | silo/txn_impl.h:442-488 | The loop at either exit releases each tuple that is held, exactly once, in ascending order of address, and no other. |
| `WriteSet.UnlockFlagged` | silo/txn_impl.h:442-452 | The tuples released are those of the flagged records, in order. |
| `WriteSet.OneFlag` | silo/txn_impl.h:442-452 | Two flagged records are never of one tuple. |
| `WriteSet.FlagsAreHeld` | silo/txn_impl.h:463-480 | A tuple has a flagged record if and only if it is held. |
| `WriteSet.FlagsAreCarried` | silo/txn_impl.h:192-228 | If the protocol has locked what the loop has, a record is flagged if and only if it carries the lock of its tuple in the protocol. |
| `WriteSet.LockedIsPrefix` | silo/txn_impl.h:297-323 | Any set of tuples that is locked from below is what the loop has locked when it stops at some record. |
| `WriteSet.FlaggedListIncreases` | silo/txn_impl.h:442-452 | The flagged tuples come in strictly ascending order. |
| `WriteSet.EndIsLast` | silo/txn.h:314-323 | In the sort order a run of one tuple ends with its last write in program order. |
| `WriteSet.FirstTells` | silo/txn.h:314-323 | The first record of a run tells whether the transaction inserted the tuple. |
| `WriteSet.AllLocksAreLockOrder` | silo/txn_impl.h:287-323 | The tuples locked are exactly those of the write set that are not own inserts, in strictly ascending order. |
| `TupleHistory.SnapshotReads` | silo/tuple.h:634-739 | A snapshot that no permitted overwrite straddles reads from the kept chain what the full multi-version history says, for non-decreasing tids. |
| `TupleHistory.ServedIffNotStraddled` | silo/tuple.h:853-956 | For strictly climbing tids, a snapshot reads what the full history says if and only if no overwrite straddles it. |
| `TupleHistory.StraddledReadIsLost` | silo/tuple.h:875-888 | A concrete overwrite that loses the version a straddled snapshot should see. |
| `TupleHistory.KeptNewest` | silo/tuple.h:853-956 | The chain stays sorted by tid and its head has the last tid written. |
| `TupleHistory.HistoryStep` | silo/tuple.h:853-956 | A write with a tid not below the newest keeps the history non-decreasing and extends the kept chain by one step. |
| `Tuple.RecordAt` | silo/tuple.h:634-739 | The walk down the chain returns the newest version not above the snapshot, or nothing; for a tentative head, nothing. |
| `Tuple.WriteRecordAt` | silo/tuple.h:853-956 | On all four paths the new head holds the writer's result on the old value; the old version is dropped exactly when overwriting is allowed, the record is not deleted and the result fits. |
| `Tuple.WriteKept` | silo/txn_impl.h:407-436 | Whatever writes came before, write_record_at adds exactly one write to the history of the chain, in place exactly when overwriting is allowed, the record is not deleted and the result fits. |
| `Tuple.ReadKept` | silo/tuple.h:634-739 | After any number of writes a snapshot reads what the full history says if no overwrite straddles it, and, for strictly climbing tids, only then. |
| `Tuple.ReplaceHead` | silo/tuple.h:902-917 | A new head in front of the whole chain, which alone is latest. |
| `Tuple.CopyBehind` | silo/tuple.h:929-941 | A copy of the tuple linked behind it keeps every version readable. |
| `Tuple.WriteHere` | silo/tuple.h:878-887 | An in-place write gives the tuple the new tid and the writer's result, or the deleted mark for an empty one. |
| `Tuple.SpillHead` | silo/tuple.h:1023-1046 | The new head holds the writer's result, whether or not the writer reads the old value. |
| `Tuple.SpillCopy` | silo/tuple.h:1008-1023 | The copy has the same version, value and tail, and is not latest. |
| `Tuple.CopyInto` | silo/tuple.h:238-243 | Copying bytes replaces a prefix of the buffer and nothing else. |
| `BTreeLayers.RunRefinesMap` | silo/btree_impl.h:814-1405 | After any sequence of insert, insert_if_absent and remove, search answers for every byte string what a map would. |
| `BTreeLayers.SearchCorrect` | silo/btree_impl.h:232-354 | search finds v for k if and only if some slot of some layer binds k to v. |
| `BTreeLayers.InsertBinds` | silo/btree_impl.h:814-1024 | Inserting binds the key (or leaves it, if only-if-absent and present) and no other key changes, through new layers and suffix clashes. |
| `BTreeLayers.RemoveBinds` | silo/btree_impl.h:1425-1531 | Removing unbinds exactly the key given. |
| `BTreeLayers.StatusIsPresence` | silo/btree_impl.h:850-981 | insert reports new, and remove reports removed, if and only if the key was absent, respectively present. |
| `BTreeLayers.InsertKeepsTree` | silo/btree_impl.h:935-981 | Every layer of the tree stays well formed when a key is inserted. |
| `BTreeLayers.DeleteKeepsTree` | silo/btree_impl.h:1455-1531 | Every layer of the tree stays well formed when a key is removed. |
| `BTree.FindIsIn` | silo/btree_impl.h:232-354 | The descent finds an entry if and only if it is anywhere in the layer with that slice and length. |
| `BTreeInsert.InsertRootCorrect` | silo/btree_impl.h:1355-1405 | Inserting into a layer keeps order, separators equal to leaf minimum keys, depth and occupancy, and changes exactly one entry. |
| `BTreeInsert.InsertKeeps` | silo/btree_impl.h:990-1353 | The invariant survives leaf splits, the append optimisation and all three ways of splitting an internal node. |
| `BTreeInsert.InsertHolds` | silo/btree_impl.h:990-1353 | The entries after an insert are the old ones with the new one in its place. |
| `BTreeInsert.AddChildIsCut` | silo/btree_impl.h:1288-1349 | The three ways of splitting an internal node are one: the node with the new child in place, cut at the same key. |
| `BTreeInsert.SplitInside` | silo/btree_impl.h:1119-1146 | The split point of a full leaf is strictly inside it and separates different slices. |
| `BTreeInsert.StaysLeft` | silo/btree_impl.h:1186-1200 | A key that does not go to the new leaf belongs at or before the split point: the invariant the author was unsure of. |
| `BTreeInsert.SplitIsCut` | silo/btree_impl.h:1148-1229 | Either way, splitting is the leaf with the new entry, cut where the slice changes: every left slice is below the new minimum key. |
| `BTreeRemove.RemoveRootCorrect` | silo/btree_impl.h:569-612 | Removing from a layer keeps the whole invariant and leaves exactly the other entries. |
| `BTreeRemove.RemoveKeeps` | silo/btree_impl.h:1412-1990 | The invariant survives every steal, merge and collapse. |
| `BTreeRemove.RemoveHolds` | silo/btree_impl.h:1412-1990 | The entries left are the others, and nothing changes only if there was nothing to remove. |
| `BTreeRemove.LeafRemoveOk` | silo/btree_impl.h:1520-1815 | A leaf that steals from or merges with a sibling leaves both with the right bounds and separator. |
| `BTreeRemove.RebalanceOk` | silo/btree_impl.h:1840-1990 | An internal node that lost a child steals, merges, collapses or stays, and the invariant holds. |
| `BTreeRow.InsertRootRow` | silo/btree_impl.h:1075-1249 | In the row of leaves an insert replaces the responsible leaf by the one or two leaves it becomes and nothing else; the append optimisation applies exactly to a leaf without a next. |
| `BTreeRow.RemoveRootRow` | silo/btree_impl.h:1520-1815 | A removal changes the row only at the responsible leaf and one neighbour: both changed, or merged into one. |
| `BTreeRow.InsertRow` | silo/btree_impl.h:1075-1349 | The same for an insert into any subtree: splitting internal nodes leaves the row in line. |
| `BTreeRow.RemoveRow` | silo/btree_impl.h:1412-1990 | The same for a removal from any subtree: the siblings a leaf uses are its neighbours in the row, and rebalancing internal nodes leaves the row as it is. |
| `BTreeLinks.InsertAtLeaf` | silo/btree_impl.h:1075-1249 | If the prev and next pointers thread the leaves of a tree, then after an insert at the responsible leaf, with or without a split, they thread the leaves of the new tree. |
| `BTreeLinks.RemoveAtLeaf` | silo/btree_impl.h:1548-1815 | The same for a removal, through every steal and merge of leaves. |
| `BTreeLinks.LinkNew` | silo/btree_impl.h:1232-1237 | The pointer adjustment of a split links the new leaf right after the old one, both ways. |
| `BTreeLinks.UnlinkNext` | silo/btree_impl.h:1695-1712 | The pointer adjustment of a merge takes the next leaf out of the row, both ways. |
| `BTreeLinks.ReplaceShrunk` | silo/btree_impl.h:1613-1812 | Each outcome of a removal puts the right leaves, with the right contents, in the places of the leaf and its sibling. |
| `BTreeKeys.TreeOrderIsLex` | silo/varkey.h:65-70 | Comparing slice, capped length and rest is comparing byte strings lexicographically. |
| `BTreeKeys.KeyUnique` | silo/varkey.h:91-112 | Slice, capped length and rest determine a key. |
| `BTreeKeys.KeyFromParts` | silo/varkey.h:91-112 | A key comes back from its slice, its length and its rest. |
| `BTreeKeys.ComputeSlice` | silo/varkey.h:91-99 | The loop that builds a slice gives the first eight bytes, zero padded, as a big-endian number. |
| `BTreeArrays.KeySearch` | silo/btree.h:850-868 | The binary search returns the slot of exactly this slice and length, or -1 if there is none. |
| `BTreeArrays.LowerBoundSearch` | silo/btree.h:874-895 | The binary search returns the last slot not above the slice and length. |
| `BTreeArrays.KeyLowerBoundSearch` | silo/btree.h:983-1003 | The binary search leads to the child that covers the slice. |
| `BTreeArrays.LeafNode.FindLowerBound` | silo/btree_impl.h:754-792 | The scan after it returns the matching slot and the last slot not above the key. |
| `BTreeArrays.SiftRight` | silo/btree.h:1564-1573 | A range moves right by k; everything outside stays. |
| `BTreeArrays.SiftLeft` | silo/btree.h:1590-1598 | A range moves left by k; everything outside stays. |
| `BTreeArrays.CopyInto` | silo/btree.h:1613-1619 | A range is copied; everything outside stays. |
| `BTreeArrays.LeafNode.InsertAt` | silo/btree_impl.h:993-1024 | The leaf holds the old entries with the new one at its place. |
| `BTreeArrays.LeafNode.RemovePos` | silo/btree.h:1704-1727 | The leaf holds the old entries without one. |
| `BTreeArrays.LeafNode.SplitInto` | silo/btree_impl.h:1148-1241 | The arrays of the two leaves after a split hold what the value model says. |
| `BTreeArrays.FindSplitPoint` | silo/btree_impl.h:1124-1146 | The two loops and the choice between them give the split point of the value model, strictly inside. |
| `BTreeSiblings.RemoveFromLeaf` | silo/btree_impl.h:1520-1812 | From the search to the status, the arrays of a leaf and its siblings become what the removal from a leaf says of the nodes: removed, stolen from a sibling, merged, or unchanged. |
| `BTreeSiblings.TurnRight` | silo/btree_impl.h:1615-1698 | The leaf without its entry steals the first run of equal slices from the right sibling if it fits and leaves some, merges if all fits, or stays small. |
| `BTreeSiblings.TurnLeft` | silo/btree_impl.h:1719-1798 | The same with the last run of the left sibling; a merge goes into the sibling. |
| `BTreeSiblings.StealRight` | silo/btree_impl.h:1634-1656 | The entries of both leaves after a steal from the right, and the new separator. |
| `BTreeSiblings.StealLeft` | silo/btree_impl.h:1736-1761 | The entries of both leaves after a steal from the left, and the new separator. |
| `BTreeSiblings.DropAndAppend` | silo/btree_impl.h:1681-1698 | One entry is dropped and the first entries of the sibling follow the others. |
| `BTreeSiblings.JoinLeft` | silo/btree_impl.h:1783-1798 | The two copies around the dropped entry append the rest to the left sibling. |
| `BTreeSiblings.MakeRoom` | silo/btree_impl.h:1737-1738 | The two shifts drop one entry and move the others to the right, in order. |
| `BTreeSiblings.FirstRun` | silo/btree_impl.h:1622-1626 | The loop finds the end of the first run of equal slices. |
| `BTreeSiblings.LastRun` | silo/btree_impl.h:1726-1730 | The loop finds the start of the last run of equal slices. |
| `BTreeScan.SearchRange` | silo/btree_impl.h:518-567 | Over a tree of one layer the callback is called for exactly the pairs wanted, in order, until it first answers false. |
| `BTreeScan.WantedIsBinds` | silo/btree_impl.h:379-516 | The pairs wanted are exactly the bindings of the tree with keys in [lower, upper). |
| `BTreeScan.WantedAscends` | silo/btree_impl.h:379-516 | They come in strictly ascending byte order. |
| `BTreeScan.TestsAreRange` | silo/btree_impl.h:426-500 | The filters on slices, lengths and suffixes decide exactly whether the key is in the range. |
| `BTreeScan.ScanRow` | silo/btree_impl.h:404-516 | The loop over the leaves reports what is wanted from the leaves on, and stops only when nothing more is. |
| `BTreeScan.ScanBuffer` | silo/btree_impl.h:450-505 | The loop over the slots copied out of a leaf reports what is wanted of them. |
| `BTreeScan.CopyOut` | silo/btree_impl.h:424-440 | The loop that copies slots out of a leaf keeps those that pass the first filter. |
| `BTreeScan.StartIsEnough` | silo/btree_impl.h:754-792 | The leaves before the one the descent ends in hold nothing that is wanted. |
| `BTreeScan.RowAscends` | silo/btree_impl.h:507-512 | Walking the leaves by their next pointers visits the entries in ascending order. |
| `BTreeScan.LeavesHold` | silo/btree_impl.h:507-512 | The row of leaves holds exactly the entries of the tree. |
| `Epoch.NoEarlyDelete` | silo/rcu.cc:200-254 | A deleter runs only after every guard that was active when its object was handed to free has ended. |
| `Epoch.TicksAreTight` | silo/ticker.h:178-214 | The global tick is at most two above the last one, every core is at most one behind, and every active guard is above the last tick. |
| `Epoch.QueuesAreOrdered` | silo/rcu.cc:200-254 | Deferred deletions are queued in order of their rcu tick, and the tick cleaned up to never goes back. |
| `Epoch.RoundedComparison` | silo/rcu.h:250-278 | The comparison of rounded ticks implies that the unrounded tick of the free, plus one, is not above the last tick. |
| `Epoch.RipeIsReady` | silo/rcu.cc:200-254 | An entry that the comparison lets through has only guards that have ended. |
| `Epoch.RunKeepsInv` | silo/ticker.h:86-214 | The invariant of ticks, guards, locks and queues holds after every run. |
| `PxQueue.RipeItems` | silo/pxqueue.h:243-265 | The batches up to a tick are exactly the items stamped up to it, in order, and the rest the others. |
| `PxQueue.EnqueuedItems` | silo/pxqueue.h:150-190 | Enqueueing appends one item with its tick and changes no other. |
| `PxQueue.EnqueuedOrderly` | silo/pxqueue.h:150-190 | Groups stay sorted by tick, not empty and within the group size. |
| `PxQueue.Queue.Enqueue` | silo/pxqueue.h:150-190 | The linked groups hold the old items and the new one, and no group is lost between queue and free list. |
| `PxQueue.Queue.EmptyAcceptFrom` | silo/pxqueue.h:243-265 | Exactly the groups up to the tick move over, in order; the source keeps the rest. |
| `PxQueue.Queue.Clear` | silo/pxqueue.h:301-312 | All groups go to the front of the free list. |
| `PxQueue.Queue.TransferFreelist` | silo/pxqueue.h:271-283 | The whole free list goes to the front of another, and the two queues still share no group. |
| `PxQueue.Queue.TransferSome` | silo/pxqueue.h:283-299 | Up to n free groups go over one by one, in reverse, and none is lost. |
| `PxQueue.Queue.AllocFreelist` | silo/pxqueue.h:314-324 | n new groups come before the old free list. |
| `PxQueue.Queue.EnsureFreelist` | silo/pxqueue.h:192-200 | A free group is at hand, and an existing free list is left alone. |
| `Circbuf.DeliveredInOrder` | silo/circbuf.h:32-66 | Pointers are delivered in the order of their compare-and-swap, each once. |
| `Circbuf.NoOverwrite` | silo/circbuf.h:32-53 | A producer that stores finds its slot empty, and no two hold one slot. |
| `Circbuf.NothingLost` | silo/circbuf.h:32-66 | When nobody is in an operation the ring holds exactly the pointers claimed and not delivered, slot by slot. |
| `Circbuf.RunKeepsInv` | silo/circbuf.h:32-107 | The invariant of the ring holds after every run with at most Capacity pointers in circulation. |
| `Circbuf.CasKeeps` | silo/circbuf.h:38-53 | A compare-and-swap that wins with an index read a lap ago still claims an empty slot. |
| `Circbuf.TakeKeeps` | silo/circbuf.h:56-66 | A slot the consumer finds filled holds the next pointer of the order. |
| `Allocator.ExactlyOnePlace` | silo/allocator.cc:154-308 | A block is in a list if and only if that is its place, and no list holds a block twice. |
| `Allocator.NoOverlap` | silo/allocator.cc:154-189 | No two carved blocks share a byte, whatever their arenas and regions. |
| `Allocator.CpuOfRegion` | silo/allocator.h:66-77 | PointerToCpu names the region that contains the pointer. |
| `Allocator.ArenaFits` | silo/allocator.h:44-51 | The arena of a size is the smallest whose blocks are large enough. |
| `Allocator.InitializePage` | silo/allocator.cc:154-188 | A page is carved into a linked list of packed, apart blocks from the first aligned address on, as many as fit. |
| `Allocator.PackedAligned` | silo/allocator.cc:154-188 | Every block is aligned to its unit. |
| `Allocator.Slab.constructor` | silo/allocator.cc:190-212 | The allocator starts with nothing carved. |
| `Allocator.Slab.AllocateArenas` | silo/allocator.cc:190-212 | A region's list is claimed, or the next page carved; failure means that the region is exhausted; blocks in use stay where they are. |
| `Allocator.Slab.Alloc` | silo/rcu.cc:103-126 | The block handed out was free or new and is now in use, and no other block in use is touched; if the arena's list has blocks, it is the first of them and the rest stay. |
| `Allocator.Slab.Dealloc` | silo/rcu.cc:140-163 | The block goes to the front of its arena's list; no other block and no other list changes. |
| `Allocator.Slab.ReleaseArenas` | silo/allocator.cc:266-308 | Every block of the thread's lists goes to the region of the CPU that owns it; no other block moves and none is lost. |
| `Allocator.PageKeeps` | silo/allocator.cc:190-212 | Carving a page keeps blocks apart and in one place each. |
| `HerdStore.Server.ProcessPipeline` | HERD/main.c:26-144 | A GET is answered with the value of the latest PUT of exactly its key as of its first or its second stage, or fails; with no PUT between, exactly as ServedExactly says. |
| `HerdStore.HitIsLatest` | HERD/main.c:112-139 | With no PUT between the stages, a hit is the latest PUT of exactly the key, despite collisions, eviction and a slot left over from an earlier request. |
| `HerdStore.HitAfterPut` | HERD/main.c:112-139 | With one PUT between, a hit is the latest PUT before or after it. |
| `HerdStore.ServedExactly` | HERD/main.c:91-139 | Exactly when a GET succeeds: the key's last PUT is in the log, is the newest with its tag in the bucket, and has its slot. |
| `HerdStore.TagZeroReadsStale` | HERD/main.c:91-139 | A run in which a key with tag 0, any such key, is served a value that was overwritten before both stages of the GET. |
| `HerdStore.TwoPutsOfTagZero` | HERD/main.c:64-87 | What two such PUTs leave in an empty bucket. |
| `HerdStore.PutThenGet` | HERD/main.c:56-91 | A PUT can be read back at once. |
| `HerdStore.PutKeepsBucket` | HERD/main.c:64-87 | A PUT keeps the bucket: the first slot with a tag, in scan order, is the newest PUT with that tag. |
| `HerdStore.PutKeepsFirst` | HERD/main.c:64-87 | The scan never leaves an older slot of another tag first. |
| `HerdStore.FirstIsNewest` | HERD/main.c:91-106 | The first slot with the tag is the newest PUT with that tag in the bucket. |
| `HerdStore.ScanForPut` | HERD/main.c:64-82 | The scan takes the first unused slot from 7 down, or the oldest of slots 7 to 1, and clears those with the key's tag that it passes. |
| `HerdStore.ScanForGet` | HERD/main.c:91-106 | The scan finds the first slot with the tag from 7 down, or none. |
| `HerdStore.PackRoundTrip` | HERD/common.h:254-255 | Packing a tag and an offset is undone by extracting them. |
| `HerdStore.InvalidSlot` | HERD/common.h:141-141 | The invalid slot has tag 0 and an offset below every log offset. |
| `HerdStore.AppendKeeps` | HERD/main.c:84-91 | Appending a record tears none that is within the last lap. |
| `HerdStore.ResetKeeps` | HERD/main.c:57-62 | Jumping to the next lap keeps the log, and a record then fits. |
| `HerdStore.LogHolds` | HERD/main.c:112-139 | Whatever offset was once written, its address holds a whole record that is not older. |
| `HerdStore.Server.PutStage1` | HERD/main.c:56-91 | Stage 1 of a PUT updates index, log and table together. |
| `HerdStore.Server.GetStage1` | HERD/main.c:91-111 | Stage 1 of a GET leaves the slot stage 2 needs, or one that stage 2 can do no harm with. |
| `HerdStore.Server.GetStage2` | HERD/main.c:112-139 | Stage 2 answers with the record at the slot's address if the slot has the tag and the record the key. |
| `HerdStore.Server.Push` | HERD/main.c:259-291 | The next request takes the place of the item just answered. |
| `HerdWindow.InIssueOrder` | HERD/main.c:177-292 | For each client and server, requests pass stage 1, are answered and are received exactly once, in issue order. |
| `HerdWindow.SlotIsFree` | HERD/main.c:365-510 | A request never lands on one that has not been answered and received. |
| `HerdWindow.PickedOnce` | HERD/main.c:177-221 | A request found by polling is the next of its client, and the poll moves past it. |
| `HerdWindow.RunKeepsInv` | HERD/main.c:177-292 | The window invariant holds after every run. |
| `HerdWindow.ArriveChan` | HERD/main.c:365-510 | The slot a request lands in is empty, by the client's window. |
| `HerdWindow.PickChan` | HERD/main.c:177-221 | What a poll finds is the next request in order. |
| `HerdService.ReceivedAnswersAreFair` | HERD/main.c:177-292 | After any run of clients and servers, the n-th response a client receives from a server answers its n-th request, from a state the server was in between issue and answer: a GET fails or finds the value of the last PUT of exactly its key at such a moment, and a PUT took effect at one. |
| `HerdService.RunKeeps` | HERD/main.c:26-144 | The joint invariant of windows, pipelines, stores and answers holds after every run. |
| `HerdService.AnswerIsFair` | HERD/main.c:112-139 | The answer of a round is one that the tables since the issue of the request allow. |
| `HerdStore.StageOneKeeps` | HERD/main.c:56-111 | Stage 1 keeps the store and leaves the item ready for stage 2; only a PUT changes the table, by its own key. |
| `HerdStore.StageTwoAnswers` | HERD/main.c:112-139 | An item that passed stage 1 is answered from the table before or after stage 1 of the item behind it. |

## Left out

- Range scans across layers: search_range_call shifts the upper bound for each layer without comparing the bytes before it (silo/btree_impl.h:547-549) and passes none to the layers below (silo/btree_impl.h:467), so such scans may stop early or go past the bound; the scan here is over one layer.
- The tree nodes between root and leaf are values: that insert0 and remove0 relink internal nodes in place, under locks, with retries and sideways moves, is not modelled. The leaf arrays and the leaf links are modelled in place.
- A leaf's keys, values, lengths and suffixes are one array of entries here.
- Concurrent use of the tree; the commit model's index is an abstract map with node versions.
- Phantoms when a transaction's own insert splits a node it scanned: the partition into nodes is fixed.
- Reading one's own writes, snapshot transactions and garbage collection of versions.
- The tid layout and the epochs of commit tids (txn_proto2_impl.h is not part of this model).
- Weak memory, backoff, prefetching, and wrap-around of version and tick counters.
- Masstree, the varint, vector and hash-map utilities, statistics, network and RDMA calls, experiment drivers.
- The malloc fallback of the allocator for large sizes and unpinned threads, and the page faults behind a region.
- `peekall` and `empty` of the ring buffer.
- Circbuf.RunKeepsInv: assumes at most Capacity pointers in circulation, because the ring itself does not enforce the limit; its users do.
- HerdStore.AppendKeeps: the log is a map from addresses to whole records and does not model the bytes of a torn record.
- HerdWindow.RunKeepsInv: assumes that requests of one client to one server arrive, and responses return, in the order they were sent.
- Tuple.WriteRecordAt: the capacity of a new tuple is any that is large enough, because the rounding of the allocation does not matter to the contents.
