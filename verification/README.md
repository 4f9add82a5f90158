# Verified models of a transactional list, its lock-free building blocks and its memory reclamation

The repository is a C++ library of transactional data structures: a sorted linked list whose operations run inside
optimistic transactions, and the concurrent machinery vendored with it (double-compare-single-swap and LLX/SCX on
reusable descriptors, DEBRA, DEBRA+ and hazard-pointer reclamation, block bags, a tagged lock-free bag of blocks, a
linear-probing hash set). This project models the parts that are hard to get right and proves what they promise.

`dafny verify dfyconfig.toml` checks everything.

## How the models are built

- **Concurrent protocols** (`TX.h`, the transactional operations of `LinkedList.h`, DCSS, LLX/SCX, DEBRA's epochs, the
  tagged stack) are state machines: shared memory plus one program counter and one set of local variables per thread,
  and at most one read, write or compare-and-swap of a shared word per step. Steps of different threads interleave
  freely; memory is sequentially consistent. A *run* is any finite sequence of such steps from any admissible initial
  state, with any number of threads, and the main results quantify over all runs, or over exactly those they name. Components called *history*
  record what happened and are never read by the protocol.
- **Sequential, heap-manipulating code** (block bags, DEBRA+'s partition, hazard-pointer `retire`, the hash set, the
  array lists, `get_size`, `Worker::work`, one thread's transaction with its write set, the skip-list index) is written as
  Dafny classes and methods that update fields and arrays in place, each proved against a mathematical value: a multiset
  of records, a set of keys, a map, a sequence.

## The main results

1. **Committed transactions are serializable on key membership** (`ConflictOrder.CommittedAreSerializable`), as long as
   no transaction has committed with a stale link (result 2). The committed transactions, taken in the order in which
   each came to hold all its write-set locks, explain every null or non-null result of `put`, `remove` and `get` as
   operations on a set of keys, starting from the keys of the initial list; although validation precedes the clock
   increment, so that write versions can disagree with that order. Every link that a committed transaction took from
   memory and acted on is the one the last earlier writer in that order left (`ReadsLastWriter`, `ReadsInitial`).
   Nothing is assumed of the index except that it offers published nodes with smaller keys.
2. **Where the code falls short of it, exactly.** `put` on a key found through a link of its own write set copies the
   overwritten node's link straight from memory (`datatypes/LinkedList.h:94-99` and `:295`), skipping the lock and version
   checks every other read makes. The copy is stale if and only if another transaction, past its commit point with a
   write version up to the read version, has still to store another link in that node (`BlindOverwrite.StaleIffPending`).
   - *With the missing check every run is serializable*: if before each such `put` the transaction has, at any instant
     since it began, seen the node's lock bit clear, no copy is ever stale (`BlindOverwrite.GuardedAreSerializable`). So
     one read of the lock before the link is read is enough; nothing is demanded of the instant at which the link is read.
   - *Without it a committed insert can be lost*: `LostUpdate.AnInsertIsLost` is a run that ends with both transactions
     committed, and no serial order leaves the list found in memory.
   - *When the transaction ends with that `put`*: the committed list stays well-formed if and only if the copied link is
     the one the node holds in memory at the commit point, where the transaction has locked it; and that is so if and
     only if the copy was not stale (`StaleLink.CopyDecides`). The results returned so far still are those of a serial
     order. If the copy was stale and the node had a successor, the successor is in the set that *every* serial order
     leaves, but no node of the list links to it (`StaleLink.SuccessorIsLost`). The same holds of memory once everything
     has come to rest: the nodes found from the head are the list, in order, exactly if the copied link was right
     (`AtRest.CopyDecidesInMemory`), and a successor lost is not among them (`AtRest.LostInMemory`).
   - *Whatever the transaction does after it*: its commit leaves a well-formed list if and only if its write set passes a
     check of the written cells and their links alone (`CommitCheck.CommitFits`). Over whole runs, whatever was committed
     before: the committed list is well-formed in every state up to some point if and only if every commit up to there
     passes that check (`CommitCheck.ListStandsExactly`); then, at rest, the list in memory has every key once, in order,
     and `get_size` counts them (`AtRest.FittingRun`). A later operation of the same
     transaction may repair a stale copy (`RepairedCopy.StaleYetRight` is such a run), and an aborted transaction does no
     harm, so staleness alone does not decide.
3. **What a transaction reads is a snapshot, in every run** (`ReadInvariance.GetNextReturnsSnapshot`), stale copies or not
   and also for transactions that abort: a link returned by `getNext` was committed with a version up to the read
   version, and nothing with such a version is committed to that node later. A transaction overtaken by a later commit
   never commits (`Doomed.CommittersWereCurrent`). The order of conflicts is the order of locking
   (`ConflictOrder.LockingOrders`). And no transaction aborts without a cause: inside an operation the node being examined
   is locked or too new, in `TXend` a written or read node is in another's hands, changed, or too new
   (`TxAborts.AbortHasCause`, `TxAborts.EndHasCause`); so a transaction with nobody else under way never aborts
   (`TxAborts.AloneNeverAborts`).
4. **Size is conserved** (`FinalSize.FinalSizeMatches`, from `ListSize.SizeIsConserved` and `Workers.Worker.Work`): once
   all workers are done, the number `get_size` counts is the initial size plus what their counters say.
5. **One thread's view of the list is a map** (`Overlay.Transaction`): `put`, `get` and `remove` through the write set
   refine updates of a map, with values; `TXend` commits exactly if nothing it locks or has read is in the way, and then
   the shared list is that map; with nobody in the way a transaction always commits (`Execute`). Which nodes each operation
   puts into the read set and the write set, and hands to the index, is exact.
6. **The skip-list index** (`SkipListIndex.Index`): `getPred` returns the live indexed node of the greatest smaller key,
   `add` and `remove` keep all levels sorted and nested, what is live stays known, and a node stands on exactly the levels
   that its coins say.
7. **DCSS over reused descriptors linearizes** (`DcssLinearization`): success has an instant inside the call at which
   both words held what was expected, a control-word failure one at which the control word differed; each installed tag
   is removed once, to the decided value; a late helper changes nothing. A call that runs alone returns within 40 steps,
   whatever stalled operations are in its way (`DcssAlone.AloneReturns`).
8. **LLX/SCX helpers agree** (`ScxRuns`): an attempt is never both all-frozen and aborted, and `scxExecute` returns true
   exactly if all its nodes were frozen, unchanged since their `llx`; then its update has been made, with the arguments
   and nodes of the calls (`ScxCalls`). An `llx` fails only for a cause, and what it helped is over when it returns. A call
   that runs alone returns within a number of steps linear in the nodes of an attempt (`ScxAlone.AloneReturns`).
9. **DEBRA's grace period** (`Debra`): while a thread stays in one operation the epoch advances at most once, nothing
   retired meanwhile reaches the pool, and all of it is in the three bags `getSafeBlockbags` names. Reclamation makes
   progress: with the others quiescent or up to date, twenty operations per thread advance the epoch
   (`Debra.EpochAdvances`), a new epoch rotates the bags, and of what was retired six rotations ago less than a block is
   left in each bag (`Debra.LimboBounded`).
10. **The containers** keep their shape and conserve records as multisets; the tagged bag of blocks linearizes to a stack, and every call returns with
    its effect (`getBlock` null only when the bag is empty);
    the hash set refines a set and its probe terminates; DEBRA+ and hazard pointers free no announced record.

## Findings

- The stale-link overwrite of `put` described above.
- `put` on a present key returns the value in memory. The comment above it promises the previous value of the key; the two
  agree if and only if the transaction has not itself put another value before (`Overlay.Transaction.Put`). A second
  `put` of a stored key always returns the value from before the first (`Overlay.Transaction.PutTwice`): with 10 stored for key
  1, `put(1, 20)` and then `put(1, 30)` returns 10 (`Overlay.PutReturnsOldValue`).
- A DCSS that fails on its control word returns the value *its own* thread last read there
  (`DcssFailure.FailedValueWasRead`). It may be `old1` (`common/dcss/dcss_impl.h:60`): `DcssWitness.FailsWithOld1` is such a
  run, and whenever it happens another thread decided the failure, having read something else
  (`DcssFailure.FailedWithOld1`). So the result says that the operation failed, not what `addr1` held.
- The debug assertion `sz < MAX_HAZARDPTRS_PER_THREAD` of the hazard-pointer scan is stricter than the announcement list,
  which accepts 16 entries: it holds if and only if no list is full (`HazardPointers.Reclaimer.Retire`), and a full one
  makes it fail (`HazardPointers.FullListFails`).

## Model

| member | source | states |
|---|---|---|
| ConflictOrder.CommittedAreSerializable | TX.h:73-175 | In every state of a run up to which no transaction has committed with a stale link there is an order of the committed transactions that agrees with the order in which they came to hold all locks, and in which every recorded null/non-null result and the final key set are those of operations on a set of keys |
| Serializability.SerialIdsSerialize | TX.h:73-175 | The same for the order kept by the model, from the keys of the initial list to those of the current committed list |
| Serializability.PlaceExplains | TX.h:112-129 | One committed transaction run alone on the list left by those before it returns what it returned and leaves the next list; an uncommitted one changes nothing |
| ConflictOrder.LockingOrders | TX.h:76-85 | In every run: if B held all its locks when A did not yet, B precedes A in the serial order for good |
| ConflictOrder.ReadsLastWriter | TX.h:112-129 | A link that a committed transaction took from memory and acted on is the one that the last committed writer of the node before it in the order wrote there |
| ConflictOrder.ReadsInitial | TX.h:112-129 | If nobody before it wrote the node, it is the link of the initial list |
| Serializability.OverlayIsSetOfKeys | datatypes/LinkedList.h:50-57 | Unless a later commit has overtaken the transaction or it has copied a stale link: write set over the list is a strictly sorted list whose keys and results are those of the operations so far on a set; only read-set nodes are written; no assumption on which smaller-key node the index offers |
| Doomed.CommittersSawTheList | datatypes/LinkedList.h:50-57 | At every instant at which a transaction that goes on to commit was running, write set over list was such a list, so no committed transaction ever saw anything else |
| Doomed.CommittersWereCurrent | TX.h:112-129 | In every run: while a transaction that passes validation was running, no node of its read set carried a version above its read version; one that has been overtaken is bound to fail |
| TxAborts.AbortHasCause | datatypes/LinkedList.h:59-132 | In every run: a transaction that aborts inside an operation is examining a node that is locked or newer than its read version |
| TxAborts.EndHasCause | TX.h:76-129 | In every run: `TXend` gives up only because a node to be written is locked by another transaction or its lock word changed since it was read, or a node that was read is locked by another or too new |
| TxAborts.WordWasRead | TX.h:76-85 | The lock word that such a compare-and-swap expects is one that the transaction has read, unlocked, just before |
| TxAborts.AloneNeverAborts | TX.h:73-129 | A transaction that begins with no other under way, and runs alone, never aborts, whatever happened before |
| TxAborts.ClockCountsWriters | TX.h:150-158 | The clock has advanced by one for each transaction past its commit point that is not read-only |
| TxAborts.WritersPutOrRemove | TX.h:150-158 | Of those past the commit point, these are exactly the transactions that called `put` or `remove` |
| TxEveryRun.EveryRun | TX.h:73-201 | In every run, whatever links are copied: each lock bit has one owner, versions and links in memory are those committed except where a committed transaction is still writing, a transaction points only to published nodes or its own, and write sets are within read sets |
| TxMachine.StepKeeps | datatypes/LinkedList.h:188-204 | Every step of every transaction keeps the invariant of memory, write sets, read sets and serial order, until one commits with a stale link; transactions that copy one and abort do no harm |
| TxMachine.CommitKeeps | TX.h:110-158 | The commit point, taken after validation by a transaction without stale copies, keeps the invariant for all transactions, although the clock is incremented last |
| TxMachine.WriteBackStepKeeps | TX.h:161-175 | Writing back one word of one node, in any order of nodes, keeps the invariant |
| TxMachine.ValidationFailKeeps | TX.h:112-129 | A transaction that fails validation leaves the order and the lists of all others as if it had never been there |
| TxOperations.OverwriteKeeps | datatypes/LinkedList.h:289-304 | `put` on a found key keeps every list the transaction could have read well-formed, unless it copies a stale link, which it then is marked with; nothing is required of the copied link |
| TxOperations.InsertKeeps | datatypes/LinkedList.h:306-322 | `put` on a missing key adds exactly that key to the view and returns null |
| TxOperations.RemoveValKeeps | datatypes/LinkedList.h:489-507 | `remove` of a found key takes exactly that key out of the view and returns its value |
| TxOperations.GetKeeps | datatypes/LinkedList.h:548-561 | `get` decides membership of its key, with only the predecessor in the read set |
| TxLocalSteps.NextKeeps | datatypes/LinkedList.h:93-132 | The checks of `getNext` establish that, for a transaction no later commit has overtaken, the link returned is the one it should see |
| TxOperations.UnlockedCurrent | datatypes/LinkedList.h:94-99 | An unlocked node's link in memory is current, so the missing check would be enough |
| BlindOverwrite.StaleIffPending | datatypes/LinkedList.h:295 | The link copied from memory is stale if and only if another transaction, past its commit point with a version up to the read version, has still to store another link there |
| BlindOverwrite.GuardedAreSerializable | datatypes/LinkedList.h:94-99 | A run in which a transaction overwrites a node reached through its write set only after having seen it unlocked, at any instant since it began, is serializable |
| StaleLink.CopyDecides | datatypes/LinkedList.h:289-296 | If the transaction ends with such a `put` and commits, the list is well-formed exactly if the copied link is the one in the locked node at the commit point, which is so exactly if the copy was not stale; otherwise the successor is unlinked or the link leads to no node of the list; the results so far are explained by a serial order in either case |
| AtRest.CopyDecidesInMemory | datatypes/LinkedList.h:289-296 | Once everything is at rest, the nodes found from the head are those of the committed list, in ascending order, exactly if the copied link was the one in the locked node at the commit point |
| StaleLink.SuccessorIsLost | datatypes/LinkedList.h:289-296 | After a stale copy the successor's key is in the set that every serial order leaves, but no node of the list links to it |
| CommitCheck.CommitFits | TX.h:160-175 | For any transaction, whatever it copied and did afterwards: its commit leaves a well-formed list exactly if its written cells pass a check of their values, links and displaced successors; without stale copies they do |
| AtRest.LostInMemory | datatypes/LinkedList.h:289-296 | At rest, the successor whose key every serial order leaves is not among the nodes found from the head |
| CommitCheck.ListStandsExactly | TX.h:160-175 | In every run, the committed list has been well-formed in every state up to some point if and only if every commit up to there passes the check |
| AtRest.FittingRun | datatypes/LinkedList.h:594-603 | If every commit passes the check, the list found in memory at rest has every committed key once, in order, and as many nodes as keys |
| CommitCheck.FitsExactly | datatypes/LinkedList.h:307-309 | A set of written cells over a well-formed list gives a well-formed list exactly if it passes that check, which looks only at the written cells and the nodes they link or linked to |
| RepairedCopy.StaleYetRight | datatypes/LinkedList.h:489-507 | A run in which a transaction commits after a stale copy, and the list in memory and all results are those of a serial order, because a later `remove` replaced the link |
| LostUpdate.AnInsertIsLost | datatypes/LinkedList.h:289-296 | A run of the unguarded protocol after which no serial order of the committed transactions leaves the list in memory, and `get_size` is too small |
| ReadInvariance.GetNextReturnsSnapshot | datatypes/LinkedList.h:101-118 | In every run: the link `getNext` returns for a committed node outside the write set was committed with a version up to the read version, and every later commit to that node has a larger one |
| ReadInvariance.SnapshotStays | TX.h:45-53 | In every run: committed contents no newer than a read version are never changed by a commit with a write version up to it |
| ListHeap.FindDecides | datatypes/LinkedList.h:188-204 | On a well-formed list the bracketing predecessor decides whether the key is present |
| ListHeap.InsertKeepsList | datatypes/LinkedList.h:307-309 | Linking a node after the bracketing predecessor keeps the list sorted and adds exactly its key |
| ListHeap.UnlinkKeepsList | datatypes/LinkedList.h:493-495 | Unlinking a node keeps the list sorted and takes out exactly its key |
| Overlay.Transaction.Put | datatypes/LinkedList.h:275-322 | `put` through the write set updates the map that the transaction sees; null exactly for an absent key; otherwise the value in memory, which is the previous value if and only if the transaction has not put another one before; a present key's node gets the value in the write set, an absent key gets a new node, which is to be added to the index; exactly the node, or the predecessor of the new one, enters the write set and the read set |
| Overlay.Transaction.PutTwice | datatypes/LinkedList.h:303 | The second `put` of a present key returns the value from before the transaction, whatever the first one put |
| Overlay.PutReturnsOldValue | datatypes/LinkedList.h:271-272 | With 10 stored for a key and 20 put before by the same transaction, `put` returns 10, not the previous value |
| Overlay.Transaction.Get | datatypes/LinkedList.h:528-561 | `get` returns what the map holds, through writes of the same transaction, and puts exactly the key's predecessor into the read set |
| Overlay.Transaction.Remove | datatypes/LinkedList.h:473-508 | `remove` takes the key out of the map and returns its value, or null; for a present key the node and its predecessor enter the write set and the read set, and the node is to be taken out of the index; for an absent one the predecessor enters the read set |
| Overlay.Transaction.End | TX.h:55-259 | `TXend` commits exactly if the transaction has not aborted, nothing it writes is locked and nothing it read is locked by others or too new; then the shared list is what the transaction saw, with the new version, and the index has its new and not its removed nodes; otherwise nothing has changed; no lock stays behind |
| Overlay.Transaction.Execute | main.cpp:56-94 | A whole transaction either has the results and the effect of its operations on a map, or no effect; with nobody in the way it commits |
| SkipListIndex.Index.GetPred | nodes/Index.h:216-223 | The live indexed node of the greatest smaller key, or the head; only dead index nodes are unlinked on the way |
| SkipListIndex.Index.Add | nodes/Index.h:154-198 | The node stands on exactly the levels up to the drawn one, one new level at most, and all rows stay sorted and nested; otherwise only dead index nodes have gone; everything live stays known |
| SkipListIndex.Index.Remove | nodes/Index.h:206-214 | No index node is left for a removed list node, only dead ones have gone, and the top level has gone exactly if the top three of more than three levels are bare |
| ListSize.QuiescentLinks | TX.h:161-201 | In every run, stale links or not: once no transaction is running, memory holds the committed links and no lock |
| ListSize.FoundExactly | datatypes/LinkedList.h:594-603 | With its links in memory, a list whose nodes have values is well-formed exactly if its live nodes are what one finds from the head, in ascending order |
| ListSize.QuiescentMemory | TX.h:161-201 | Once no transaction is running, memory equals the committed list, unlocked, whatever the order of write-back |
| ListSize.ListUnique | datatypes/LinkedList.h:594-603 | Following the links from the head gives one path only |
| ListSize.ListInMemory | datatypes/LinkedList.h:594-603 | A well-formed list is visited from head to end, every key once and nothing else |
| ListSize.GetSize | datatypes/LinkedList.h:594-603 | `get_size` counts the nodes after the head |
| ListSize.ExplainedSize | main.cpp:118-140 | A log explained by a set changes its size by null puts minus non-null removes |
| ListSize.FinalKeysUnique | main.cpp:223-240 | Whatever order of the committed transactions explains their results, the keys at the end are the same |
| ListSize.FinalList | main.cpp:223-240 | At quiescence the list in memory holds what the committed transactions, run one after another, leave of the initial keys |
| ListSize.SizeIsConserved | main.cpp:223-240 | At quiescence `get_size` is the initial size plus committed null puts minus committed non-null removes; aborted transactions count nothing |
| Workers.Worker.Work | main.cpp:56-94 | The counters hold exactly the operations of committed transactions, and every task counts as succeeded or failed once |
| Workers.NetOfCounts | main.cpp:118-140 | The two counters together give the change in size of the set |
| Workers.ExpectedChange | main.cpp:223-240 | What a worker adds to the expected size is the net count of its committed operations |
| FinalSize.FinalSizeMatches | main.cpp:220-243 | Once all workers are done, `get_size` returns the initial size plus the inserts minus the removes of all their counters |
| DcssLinearization.ResultHasInstant | common/dcss/dcss_impl.h:116-150 | Success has an instant inside the call with old1 in addr1 and this tag in addr2; FAILED_ADDR1 one with another value in addr1; addr2 holds the tag from then to the decision |
| DcssLinearization.DecidedAtInstant | common/dcss/dcss_impl.h:25-43 | Whoever decides, the decision is justified by the control word at an instant when the tag was in place |
| DcssLinearization.LogicalChangesOnlyBySuccess | common/dcss/dcss_impl.h:40-60 | The logical value of a word changes only when its operation is decided successful, from old2 to new2 |
| DcssLinearization.FailedAddr2Untouched | common/dcss/dcss_impl.h:134-149 | FAILED_ADDR2 means the tag never was in memory, and returns a value other than old2 that addr2 held at an instant of the call |
| DcssLinearization.FoundInsideCall | common/dcss/dcss_impl.h:152-167 | A read through tags returns the value its word stands for at an instant of the call, as a failure on addr2 does |
| DcssFailure.FailedValueWasRead | common/dcss/dcss_impl.h:25-33 | The value returned with FAILED_ADDR1 is what the calling thread itself read of addr1 inside the call, after its tag went in |
| DcssFailure.FailedWithOld1 | common/dcss/dcss_impl.h:54-60 | If that value is old1, then another thread decided the failure, having read another value; a failure the thread decided itself returns another value than old1 |
| DcssWitness.FailsWithOld1 | common/dcss/dcss_impl.h:60 | There is a run in which FAILED_ADDR1 comes with old1 |
| DcssAlone.AloneReturns | common/dcss/dcss_impl.h:24-167 | A DCSS or a read that runs alone returns after at most 40 of its steps, from any reachable state, whatever stalled operations are in its way: it helps them first |
| DcssAlone.RankFalls | common/dcss/dcss_impl.h:24-167 | Each step of a thread inside a call brings the end of the call nearer as long as nobody interferes |
| DcssAlone.NeverStuck | common/dcss/dcss_impl.h:24-167 | A thread inside a call can always take its next step |
| DcssRuns.TagLifetimeIsOneInterval | common/dcss/dcss_impl.h:134-148 | A tag is in memory during one interval and in one word, so it is removed at most once however descriptors are reused |
| DcssRuns.RemovedAsDecided | common/dcss/dcss_impl.h:48-60 | The removing step writes new2 if the state was decided SUCCEEDED and old2 if FAILED |
| DcssRuns.FinishedLeavesNoTag | common/dcss/dcss_impl.h:145-147 | When the owner returns, its tag has been installed and removed |
| DcssRuns.LateHelperIsHarmless | common/dcss/dcss_impl.h:40-60 | A helper of a finished operation changes no word and no descriptor, even if its failed CAS returns the state of a later operation |
| DcssRuns.SnapshotIsConsistent | common/descriptors/descriptors_impl2.h:127-132 | A successful snapshot holds exactly the arguments of the operation the tag names, although copied word by word while the owner may reuse the descriptor |
| DcssRuns.HelpStaysInMemory | common/dcss/dcss_impl.h:64-80 | A helper dereferences only existing addresses |
| DcssRuns.NextKeeps | common/descriptors/descriptors_impl2.h:79-104 | Every step of every thread keeps the invariant of descriptors, tags and helpers |
| ScxRuns.ExecuteReturnsTrueIffAllFrozen | common/scx_provider.h:211-223 | True exactly for attempts all of whose nodes were frozen, which are the committed ones; false exactly for those that can never freeze all |
| ScxRuns.NeverFrozenAndAborted | common/scx_provider.h:106-119 | No attempt ever has the all-frozen bit and the aborted state, at whatever times |
| ScxRuns.AllHeldWhenFirstFrozen | common/scx_provider.h:96-119 | When all-frozen is first set, every node of the attempt still holds its tag |
| ScxRuns.FrozenUnchangedSinceLlx | common/scx_provider.h:97-99 | A node is frozen only if it still holds the handle its `llx` returned, and has held it at every instant since |
| ScxRuns.HandleNeverReturns | common/scx_provider.h:167-189 | A handle is in a node's `scxPtr` during one interval, although descriptors are reused |
| ScxRuns.FinalizedStaysFrozen | common/scx_provider.h:121-124 | A node finalized by a committed attempt stays marked and is never frozen again |
| ScxRuns.EffectsOnlyWhenFrozen | common/scx_provider.h:119-129 | Marks and updates are made only on behalf of attempts that are all frozen and not aborted |
| ScxRuns.UpdatedAtMostOnce | common/scx_provider.h:125-126 | However many threads help an attempt, its update CAS changes the field at most once, if no value of that field recurs |
| ScxCalls.UpdateTakesEffect | common/scx_provider.h:125-129 | A committed attempt has been updated after it was frozen: a step that replaced the old value of the field by the new one, unless the field did not hold the old value |
| ScxCalls.AddNodeAdds | common/scx_provider.h:201-209 | A call of `scxAddNode` adds exactly the node, flag and handle it was given, behind those added before |
| ScxCalls.ExecutePublishes | common/scx_provider.h:211-219 | The attempt that `scxExecute` starts has the arguments of the call and the nodes added before |
| ScxCalls.FieldsStay | common/scx_provider.h:196-219 | Between those calls only `scxInit` changes what is prepared, by emptying it |
| ScxCalls.LlxSucceeds | common/scx_provider.h:167-183 | A successful `llx` returns a handle that the node held at every instant since it was read, of an attempt that is over and has not finalized the node |
| ScxCalls.LlxFails | common/scx_provider.h:167-189 | A failing `llx` had an instant at which the node was marked, or no longer held the handle read, or was frozen for an attempt in progress |
| ScxCalls.HelpEnds | common/scx_provider.h:96-145 | An attempt that an `llx` has helped is over when the `llx` returns |
| ScxAlone.AloneReturns | common/scx_provider.h:96-223 | A call that runs alone returns after at most six steps per node of an attempt and sixteen more, whatever attempts are in progress |
| ScxAlone.RankFalls | common/scx_provider.h:96-223 | Each step of a thread inside a call brings the end of the call nearer as long as nobody interferes |
| ScxAlone.NeverStuck | common/scx_provider.h:96-223 | A thread inside a call can always take its next step |
| ScxProof.NextKeeps | common/descriptors/descriptors_impl.h:68-84 | Every step keeps the invariant of descriptors, nodes and helpers |
| Debra.EpochAdvancesAtMostOnce | common/recordmgr/reclaimer_debra.h:183-226 | The global epoch advances at most once while a thread stays in one operation |
| Debra.RetiredRecordsOutliveOperations | common/recordmgr/reclaimer_debra.h:144-152 | No record retired during a thread's operation reaches the pool before that operation ends |
| Debra.SafeBagsSuffice | common/recordmgr/reclaimer_debra.h:82-90 | Each such record is in one of the three bags `getSafeBlockbags` returns for the thread that retired it |
| Debra.FreeableIsOld | common/recordmgr/reclaimer_debra.h:144-152 | The bag a rotation frees was filled at least five rotations earlier |
| Debra.RotationSparesProtected | common/recordmgr/reclaimer_debra.h:144-152 | The bag a rotation frees holds nothing retired during any running operation |
| Debra.ScanStaysInBounds | common/recordmgr/reclaimer_debra.h:183-226 | The incremental scan's array access is in bounds in every reachable state |
| Debra.CasAdvances | common/recordmgr/reclaimer_debra.h:211-218 | A thread that comes to the compare-and-swap of the epoch leaves it with a larger epoch, whoever advanced it |
| Debra.EpochAdvances | common/recordmgr/reclaimer_debra.h:183-226 | As long as all other threads are quiescent or have announced the current epoch, twenty operations per thread by one thread, none read-only, advance the epoch |
| Debra.NewEpochRotates | common/recordmgr/reclaimer_debra.h:186-199 | A thread that has announced another epoch than before has rotated its bags in between |
| Debra.NothingLost | common/recordmgr/reclaimer_debra.h:238-241 | Every retired record is in the pool or in the one bag of its owner that was current when it was retired, and nowhere else |
| Debra.LimboBounded | common/recordmgr/reclaimer_debra.h:144-152 | Of what a thread retired six or more rotations ago, less than one block is left in each bag, and all the rest is in the pool |
| Debra.StepKeepsInv | common/recordmgr/reclaimer_debra.h:183-241 | Every step of every thread keeps the invariant of announcements, scans and bags |
| TaggedStack.LinearizesToStack | common/recordmgr/lockfreeblockbag.h:57-83 | In every run the operations in the order of their CASes are those of a stack, and the links from the head give the blocks it holds |
| TaggedStack.NoBlockLostOrDuplicated | common/recordmgr/lockfreeblockbag.h:57-83 | A block in the bag or with a thread is for ever in exactly one such place |
| TaggedStack.SuccessfulPopSawTheStack | common/recordmgr/lockfreeblockbag.h:57-72 | If the CAS of `getBlock` succeeds, neither head nor stack has changed since this call loaded the head, so the separately read link is right |
| TaggedStack.SameTagSameStack | common/recordmgr/lockfreeblockbag.h:57-83 | While the tag is the same, so is the whole stack |
| TaggedStack.NullOnlyWhenEmpty | common/recordmgr/lockfreeblockbag.h:57-72 | `getBlock` returns null only at an instant at which the bag is empty |
| TaggedStack.BlockWasOnTop | common/recordmgr/lockfreeblockbag.h:57-72 | A block that `getBlock` returns was on top of the bag when the call took it off, and is the caller's now |
| TaggedStack.AddReturnsWhenPushed | common/recordmgr/lockfreeblockbag.h:73-83 | `addBlock` returns in the step that puts its block on top of the bag |
| TaggedStack.GetCanEnd | common/recordmgr/lockfreeblockbag.h:57-72 | From any reachable state a `getBlock` that starts over can end by itself: null if the bag is empty, the top block if not |
| TaggedStack.AddCanEnd | common/recordmgr/lockfreeblockbag.h:73-83 | So can an `addBlock`, with its block on top |
| DebraPlus.FreeBehind | common/recordmgr/reclaimer_debraplus.h:203-241 | Of a bag that has become large, exactly the blocks behind the `nextswap` block of the partitioned bag go to the pool; everything before it is announced, nothing handed over is, and no record is lost or duplicated |
| DebraPlus.HandOver | common/recordmgr/reclaimer_debraplus.h:237-240 | Exactly the blocks after the `nextswap` block move, in order, to the end of the other bag |
| DebraPlus.Partition | common/recordmgr/reclaimer_debraplus.h:223-236 | The two-iterator pass permutes the bag's records and leaves no announced one behind the block it stops in |
| DebraPlus.SwapIn | common/recordmgr/reclaimer_debraplus.h:229-236 | A swap extends the announced prefix by one position |
| DebraPlus.SwappedTotal | common/recordmgr/blockbag.h:228-232 | Swapping two positions keeps the multiset of records |
| DebraPlus.RestUnannounced | common/recordmgr/reclaimer_debraplus.h:229-240 | After the pass nothing announced is behind the block in which the second iterator stands |
| DebraPlus.Behind | common/recordmgr/reclaimer_debraplus.h:237-240 | The blocks handed over hold no announced record, and the two bags together hold what they held |
| HazardPointers.Reclaimer.Retire | common/recordmgr/reclaimer_hazardptr.h:143-235 | Announced records never reach the pool, none is lost or duplicated, a scan leaves at most 16 per thread, so the list of 80 per thread never overflows; the debug assertion of the scan holds exactly if no announcement list is full |
| HazardPointers.FullListFails | common/recordmgr/reclaimer_hazardptr.h:212-214 | A list that holds the 16 entries it accepts fails the assertion |
| HazardPointers.Reclaimer.FreeUnannounced | common/recordmgr/reclaimer_hazardptr.h:221-231 | What is not in the comparison set is freed, once each; the rest is compacted |
| HazardPointers.Reclaimer.Collect | common/recordmgr/reclaimer_hazardptr.h:209-220 | The comparison set holds exactly the announced records and stays at most half full |
| HazardPointers.Reclaimer.constructor | common/recordmgr/reclaimer_hazardptr.h:243-255 | The sizes chosen make the above possible |
| HazardPointers.SurvivorsFewerThanAnnounced | common/recordmgr/reclaimer_hazardptr.h:221-235 | Distinct announced survivors number at most 16 per thread |
| HazardPointers.AfterScan | common/recordmgr/reclaimer_hazardptr.h:221-235 | After a scan: bounded, conserved, and split by announcement |
| HazardPointers.ArrayList.Erase | common/recordmgr/arraylist.h:115-118 | Erasing removes one occurrence and nothing else |
| HazardPointers.ErasedElements | common/recordmgr/arraylist.h:111-114 | Moving the last element into the gap loses exactly the erased one |
| ProbingSet.HashSet.GetIndex | common/recordmgr/hashtable.h:170-188 | Probing terminates in a table that is not full, at the one cell for that key |
| ProbingSet.HashSet.Contains | common/recordmgr/hashtable.h:210-215 | True exactly for the members of the set |
| ProbingSet.HashSet.Insert | common/recordmgr/hashtable.h:216-223 | Adds exactly that key and keeps every other key findable |
| ProbingSet.CellDecides | common/recordmgr/hashtable.h:170-215 | A key is in the table if and only if its cell holds it |
| ProbingSet.InsertKeepsTable | common/recordmgr/hashtable.h:216-223 | Filling the empty cell of a new key keeps the probing invariant of all keys |
| ProbingSet.TableSizeFor | common/recordmgr/hashtable.h:190-194 | The capacity is a power of two and at least twice the number of elements |
| BlockBags.BlockBag.Add | common/recordmgr/blockbag.h:361-377 | Adds the record; a head block that becomes full gets an empty one in front |
| BlockBags.BlockBag.Remove | common/recordmgr/blockbag.h:446-469 | Takes the last record of the head block, or of the next one if the head block is empty |
| BlockBags.BlockBag.Erase | common/recordmgr/blockbag.h:407-445 | The last record of the head block takes the erased one's place, and only the erased one is lost |
| BlockBags.BlockBag.RemoveFullBlock | common/recordmgr/blockbag.h:536-561 | Unlinks the block after the head exactly if another one follows it, full and unlinked |
| BlockBags.BlockBag.AddFullBlock | common/recordmgr/blockbag.h:562-575 | Appends the block at the tail |
| BlockBags.BlockBag.AppendMoveFullBlocks | common/recordmgr/blockbag.h:617-642 | The blocks after the predecessor move, in order, to the end of this bag, and both counts are exact |
| BlockBags.BlockBag.AppendMoveAll | common/recordmgr/blockbag.h:646-655 | The other bag ends empty and the two bags together hold what they held |
| BlockBags.CountBlocks | common/recordmgr/blockbag.h:303-311 | Walking the list counts its blocks |
| BlockBags.AddedKeeps | common/recordmgr/blockbag.h:361-377 | Adding keeps the shape and adds one record to the multiset |
| BlockBags.PoppedKeeps | common/recordmgr/blockbag.h:446-469 | Removing keeps the shape and takes one record from the multiset |
| BlockBags.WithoutKeeps | common/recordmgr/blockbag.h:410-445 | Erasing keeps the shape and takes exactly the erased record from the multiset |
| BlockBags.SecondOut | common/recordmgr/blockbag.h:538-561 | Taking out the second block keeps the shape and takes exactly its records |
| BlockBags.Moved | common/recordmgr/blockbag.h:617-642 | Moving a tail of blocks keeps both shapes and the records of the two bags together |

## Left out

- ConflictOrder.CommittedAreSerializable: the results of serial order are stated for states up to which no transaction has committed with a stale link, the condition under which the code meets them; `LostUpdate.AnInsertIsLost` is a run without it that goes wrong and `RepairedCopy.StaleYetRight` one that does not. For a transaction that goes on after a stale copy, whether the list stays well-formed is exact (`CommitCheck.ListStandsExactly`), but whether its later results happen to be right is not characterised.
- Serializability.OverlayIsSetOfKeys: of a transaction that a later commit has overtaken nothing is said, since its read set no longer fits one list; it never commits (`Doomed.CommittersWereCurrent`).
- The concurrent models are state machines over values, because their steps interleave; in them, in-place update of list nodes appears as an update of the memory map. Dafny classes are used for what one thread does alone: the containers, the reclaimers' scans, `Worker`, one thread's transaction (`Overlay`) and the skip-list index, whose `Overlay` and `SkipListIndex` models have no interleaving.
- Operations outside a transaction (`putSingleton`, `removeSingleton`, `getSingleton`) and the singleton bit, so that checks on that bit are absent from the modelled branches; `putIfAbsent`, the queue and the Java copy.
- Values in the concurrent model: it keeps whether a node holds a value, not which; `Overlay` has the values, for one thread.
- Keys are natural numbers above the head's key; a put of the head's own key is not modelled. One transaction per process: a thread that runs several is several processes.
- FinalSize.FinalSizeMatches: that a worker's committed log is that of its transactions in the run is a hypothesis (`Staffed`); the worker's calls are not steps of the machine.
- Nodes are never recycled while the list is in use, as with the default shared-pointer wrapper; the link from reclamation to transactions is not modelled.
- Opacity of transactions that go on to abort: only the per-node read invariance is claimed of them.
- DCSS and SCX: bit packing of tags and descriptors (records with unbounded sequence numbers instead), `helpProcess` and `getDescriptorTagptr`, the variant with payload arrays. SCX: that a node is added at most once to one attempt, and that no value recurs in an update field, which every helper swaps from `oldVal` to `newVal`, are the caller's obligations.
- DEBRA+: neutralizing signals, recovery and the collection of announcements into the comparison set; the partition and hand-over of a bag are modelled, with any comparison set. The optional statistics and the read-only shortcut of `startOp` are left out, except that a scan may be skipped.
- HazardPointers.Reclaimer.Retire: announcement lists stand still during a call, while other threads may write them; announcing (`protect`) and its re-validation are not modelled. The same holds of `Collect`.
- HazardPointers.Reclaimer.Collect: announcement lists stand still while they are hashed, as above.
- Block pools and allocation: blocks come from `new` and dropped blocks disappear; the record types, padding, debug counters and `blockbag`'s shared-bag overloads.
- The hash function of the probing set is a parameter: the results hold for every one.
- The skip-list index is used by one thread; its retry loops after a lost race, and `casHead` losing, do not occur. The random level is a parameter.
- Weak memory, fences, thread binding, hardware transactions, `common/rlu`, `common/urcu`, `common/rq`, the tree-based epoch reclaimers.
- Liveness under contention: of retry loops it is proved that calls of DCSS and LLX/SCX that run alone end, and that calls on the tagged bag can; nothing is said of calls that are disturbed for ever, nor that a transaction's search ends.
- `llx` tells FINALIZED from FAILED by a first read of the mark, whose value is not modelled: both are failures.
