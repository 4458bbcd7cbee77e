# Verification of MyThOS kernel protocols

A Dafny model of the parts of the MyThOS kernel whose correctness is not visible from any one
function, with proofs about them. Concurrent code is modelled as a step system: a state, the
steps that threads can take (one atomic access, or one section between locking and unlocking),
and theorems over every sequence of steps. List, loop and table code is modelled as classes and
methods that change fields and arrays in place.

| module | what it models |
|---|---|
| `Caps` | capability words and the parent relation that turns a list into a tree |
| `CapTree` | the tree as a sequence of linked capabilities, all histories of changes to it |
| `CapList` | list entries as heap objects with next and prev links and lock flags |
| `Revocation` | leaf-by-leaf deletion and the two phases of a delete or revoke request |
| `CapOps` | derive, reference and resetReference on the list |
| `TaskQueue`, `ChainFifo` | the abstract task queue, and the queue in terms of its memory words |
| `Place` | the scheduler of a hardware thread with its two queues and the wakeup interrupt |
| `DelegationMutex` | the combining lock with handover |
| `NestedMonitor`, `DeletionMonitor` | request monitor with a home place; deferred deletion |
| `SynchronousTask` | tasks whose sender waits until they have run |
| `Broadcast` | the tasklet that travels around all threads before objects are freed |
| `RingChannel` | the ring of slots between device and host with 16-bit sequence numbers |
| `LogChannel` | cutting log messages into packets and putting them together again |
| `PageTables`, `MemMapping`, `MemMapper` | four-level page tables and the boot-time mapper |
| `CapLookup` | lookup of capability pointers in a graph of guarded maps |
| `Arithmetic`, `Sequences`, `Options` | facts about quotients, powers of two and sequences; optional values |

The capability modules belong together: `CapTree` shows for
all histories that whatever was made from a capability lies in the run of its children, `CapList`
and `Revocation` show that the code on linked entries performs exactly such histories, and
`Revocation` that a deletion removes exactly this run unless an object refuses or the guarded
object is met, and that every object queued on the way is deleted. `ChainFifo` shows that the queue
words behave like `TaskQueue`, on which the models of the place, the mutex and the monitor rest.

Some promises hold only under a condition. The condition is part of the theorem, in both
directions:

* `RingChannel.RingIsCorrect`: the number of slots has to divide 2^16, and at most
  2^15 - slots + 1 producers may be active at once. Otherwise two producers can get the same slot,
  or the ring stops when the handle wraps.
* `LogChannel.LogIsDelivered`: no message may have 2^16 bytes or more. A longer one is always
  logged in several pieces.
* `MemMapper.OthersUnchanged` and `MemMapper.Mapper.Mmap`: the code overwrites occupied slots. A
  large page that the range covers only in part disappears, and a lowest table can be replaced by
  a large page while the index keeps listing it; what is mapped there later has no effect. All
  conditions are given exactly, and `MemMapper.LargePageIsLost` and `MemMapper.LowestTableIsLost`
  give short sequences of calls that meet them.
* `DeletionMonitor.DeletionIsNeverLost`: how often the deletion task is scheduled, as a sum.
* `DelegationMutex.HandoverNeedsTheMark`: the handover needs the build in which starting a
  tasklet does not clear its mark. `DelegationMutex.DebugBuildStrands` gives a run of the other
  build that ends with a lock nobody can take.
* `Place.OtherOrderLosesWakeup`: the order in which the queues are released matters.
* `Caps.DeriveFromDerivedIsIllegal`: what the guard of derive is good for.

The comment on `isParentOf` in kernel/objects/capability-utils/objects/ops.hh says that derived
references can have derived references as children. The code gives no reference any children, and
the model follows the code.

## Model

| member | source | states |
|---|---|---|
| `Caps.ParentTransitive` | kernel/objects/capability-utils/objects/ops.cc:36-54 | the parent relation is transitive, so the list is a preorder of a tree |
| `Caps.OriginalOwnsRange` | kernel/objects/capability-utils/objects/ops.cc:36-54 | the children of an original capability are exactly the capabilities inside its range, those of the same range included |
| `Caps.OthersOwn` | kernel/objects/capability-utils/objects/ops.cc:36-54 | a reference has no children; a derived capability has those of a smaller range inside its own and, of the same range, exactly the derived references |
| `Caps.ChildOfChild` | kernel/objects/capability-utils/objects/ops.hh:86-106 | what passes the assertions of inherit behind a child of a capability is a child of that capability as well, even behind a reference, with exactly one exception: a capability of the same range that has lost the derived flag |
| `Caps.DeriveIsLegal` | kernel/objects/capability-utils/objects/ops.cc:56-63 | deriving never trips the tree assertions when the guard let it pass |
| `Caps.ReferenceIsLegal` | kernel/objects/capability-utils/objects/ops.cc:65-72 | referencing any usable capability never trips them |
| `Caps.DeriveFromDerivedIsIllegal` | kernel/objects/capability-utils/objects/ops.cc:58-58 | without the guard, deriving from a derived capability is legal exactly if the range shrinks |
| `CapTree.InsertComplete` | kernel/objects/capability-spinning/objects/CapEntry.hh:183-211 | linking behind the parent keeps every descendant in the run of children of each of its non-reference ancestors |
| `CapTree.InsertNoOrphans` | kernel/objects/capability-spinning/objects/CapEntry.hh:183-211 | and keeps all non-reference ancestors of linked capabilities linked |
| `CapTree.InsertRecordsOrigin` | kernel/objects/capability-spinning/objects/CapEntry.hh:183-211 | the new capability stands directly behind the one it is made from, and its ancestors are that one and that one's ancestors |
| `CapTree.RemoveComplete` | kernel/objects/capability-spinning/objects/CapEntry.cc:128-137 | unlinking any entry keeps the remaining descendants in their runs |
| `CapTree.RemoveNoOrphans` | kernel/objects/capability-spinning/objects/RevokeOperation.cc:121-132 | unlinking a leaf or a reference makes no orphan |
| `CapTree.MarkKeepsInv` | kernel/objects/capability-spinning/objects/CapEntry.cc:114-126 | killing entries changes neither ancestry nor runs |
| `CapTree.StepKeepsInv` | kernel/objects/capability-utils/objects/ops.cc:36-72 | every step of any operation keeps the list complete and free of orphans |
| `CapTree.HistoryKeepsInv` | kernel/objects/capability-spinning/objects/RevokeOperation.cc:107-144 | so does every interleaving of any number of operations |
| `CapTree.HistoryKeepsAncestry` | kernel/objects/capability-spinning/objects/RevokeOperation.cc:107-144 | no history changes what a capability was made from |
| `CapTree.ReachableInv` | kernel/objects/capability-utils/objects/ops.cc:36-72 | in every reachable list everything made from a non-reference capability lies in its contiguous run of children, and every non-reference ancestor is linked |
| `CapTree.RunEnd` | kernel/objects/capability-utils/objects/ops.cc:36-54 | the run of children of an entry is the maximal one: all before its end are children, the one at its end is not |
| `CapTree.RemoveFromRun` | kernel/objects/capability-spinning/objects/RevokeOperation.cc:107-144 | removing any member shortens the run by one and leaves everything outside as it is |
| `CapTree.MarkInRun` | kernel/objects/capability-spinning/objects/RevokeOperation.cc:186-191 | the kills on the way down change neither the run's length nor anything outside |
| `CapTree.RevokeRemovesDescendants` | kernel/objects/capability-spinning/objects/RevokeOperation.cc:107-144 | once the run is gone, nothing made directly or indirectly from the capability is linked |
| `CapList.CapEntry.constructor` | kernel/objects/capability-spinning/objects/CapEntry.hh:56-56 | a new entry is vacant: empty, unlinked, unlocked and without flags |
| `CapList.CapEntry.Lock` | kernel/objects/capability-spinning/objects/CapEntry.hh:87-88 | takes the free lock of the link to the successor and touches nothing else |
| `CapList.CapEntry.Unlock` | kernel/objects/capability-spinning/objects/CapEntry.hh:89-89 | gives back a lock that is held |
| `CapList.CapEntry.InitRoot` | kernel/objects/capability-spinning/objects/CapEntry.cc:33-42 | the root alone forms a ring without locks and flags |
| `CapList.CapEntry.TryAcquire` | kernel/objects/capability-spinning/objects/CapEntry.cc:44-49 | exactly empty entries can be acquired, others keep their value |
| `CapList.CapEntry.Kill` | kernel/objects/capability-spinning/objects/CapEntry.cc:114-126 | usable becomes zombie, true means zombie afterwards, nothing else changes |
| `CapList.CapEntry.Reset` | kernel/objects/capability-spinning/objects/CapEntry.cc:63-70 | the entry is vacant again |
| `CapList.CapEntry.LockPrev` | kernel/objects/capability-spinning/objects/CapEntry.cc:139-162 | locks the predecessor exactly if the entry is linked |
| `CapList.CapEntry.InsertAfter` | kernel/objects/capability-spinning/objects/CapEntry.hh:183-211 | succeeds exactly if the parent still has the expected usable value; then the list is the old ring with the target behind the parent, the target holds the given capability without flags, and the tree made one insert step; otherwise nothing changed and the target is vacant; no lock stays set |
| `CapList.CapEntry.CommitBehind` | kernel/objects/capability-spinning/objects/CapEntry.hh:200-209 | the part of an insertion under the parent's lock: the ring, the tree and the target after it, and no locks |
| `CapList.CapEntry.LinkBehind` | kernel/objects/capability-spinning/objects/CapEntry.hh:202-208 | the four stores turn a ring into the ring with one more entry and release the parent's lock |
| `CapList.CapEntry.MoveTo` | kernel/objects/capability-spinning/objects/CapEntry.cc:81-112 | the two refusals and the self-deadlock of an only entry exactly characterised, with capability and pin kept; on success the other entry stands at the same place with the same capability and this one is vacant; ring and contents in all cases, no locks unless it deadlocks |
| `CapList.CapEntry.MoveLocked` | kernel/objects/capability-spinning/objects/CapEntry.cc:98-111 | the locked section keeps ring and contents, ends without locks and leaves this entry vacant |
| `CapList.CapEntry.ReplaceBy` | kernel/objects/capability-spinning/objects/CapEntry.cc:98-106 | the stores give the neighbours of one entry to another and drop both locks |
| `CapList.CapEntry.Unlink` | kernel/objects/capability-spinning/objects/CapEntry.cc:128-137 | from the ring with exactly this entry and its predecessor locked to the ring without the entry and without locks; the flags of both the entry and its successor are gone |
| `CapList.SpliceInRing` | kernel/objects/capability-spinning/objects/CapEntry.hh:202-208 | next and prev are mutually inverse after the stores of an insertion |
| `CapList.SpliceOutRing` | kernel/objects/capability-spinning/objects/CapEntry.cc:128-137 | and after those of a removal |
| `CapList.ReplaceRing` | kernel/objects/capability-spinning/objects/CapEntry.cc:98-106 | and after those of a move |
| `Revocation.RevokeOperation.StartTraversal` | kernel/objects/capability-spinning/objects/RevokeOperation.cc:146-170 | starts exactly if the root is linked, not alone and still the same capability; then exactly it and its predecessor are locked, else nothing is |
| `Revocation.RevokeOperation.FindLockedLeaf` | kernel/objects/capability-spinning/objects/RevokeOperation.cc:172-195 | ends at a leaf inside the run of the root, everything on the way is killed, and at each loop head exactly the current entry and its predecessor are locked |
| `Revocation.RevokeOperation.NotifyObject` | kernel/objects/capability-spinning/objects/RevokeOperation.cc:129-129 | the object agrees or refuses, which is recorded, and what it queues comes behind what is queued already |
| `Revocation.RevokeOperation.DeleteLeaf` | kernel/objects/capability-spinning/objects/RevokeOperation.cc:121-139 | fails exactly if the leaf belongs to the guarded object, which is then not told, or if its object refuses; success unlinks the leaf and leaves it vacant, any error leaves list and contents alone; no locks afterwards |
| `Revocation.RevokeOperation.FinishIteration` | kernel/objects/capability-spinning/objects/RevokeOperation.cc:114-139 | each way an iteration can end and whom it told, with the list at rest afterwards; the removed entry is vacant, and the pin of the root is dropped exactly when there are no more children |
| `Revocation.RevokeOperation.DeleteOne` | kernel/objects/capability-spinning/objects/RevokeOperation.cc:110-141 | on any list, also if the root was killed, refilled or unlinked meanwhile: it does nothing exactly if the root is gone, changed or alone; otherwise legal tree steps keep everything outside the run, the entry that it removes is vacant, and a failure has one of its two causes |
| `Revocation.RevokeOperation.DeleteLocked` | kernel/objects/capability-spinning/objects/RevokeOperation.cc:112-139 | the same for its part under locks, also with a root that was killed meanwhile |
| `Revocation.RevokeOperation.DeleteListed` | kernel/objects/capability-spinning/objects/RevokeOperation.cc:110-141 | seen from the list at the start, what an iteration leaves is the old list without the removed entries, all of which are vacant |
| `Revocation.LeftOverRemove` | kernel/objects/capability-spinning/objects/RevokeOperation.cc:131-132 | the list without the entries that are gone stays the old list without them when one more goes |
| `Revocation.RevokeOperation.DeleteStep` | kernel/objects/capability-spinning/objects/RevokeOperation.cc:110-141 | seen from the start of the deletion, each iteration shortens the list and tells one more object, or ends with the promised outcome |
| `Revocation.RevokeOperation.Delete` | kernel/objects/capability-spinning/objects/RevokeOperation.cc:107-144 | terminates; fails exactly if a told object refused, or else if the run, with the root if that goes too, holds the guarded object; otherwise exactly the run of children is gone, plus the root if it is a zombie and not the tree root, all else unchanged and in order; the capabilities whose objects were told and agreed are exactly the removed ones, each once; after an error everything outside the run is unchanged; in every case the list is the old one without the removed entries, each removed entry is empty, unlinked and without flags, and the ring has no locks |
| `Revocation.VerdictLemma` | kernel/objects/capability-spinning/objects/RevokeOperation.cc:107-144 | the result is a function of the answers and of the list at the start |
| `Revocation.DeleteLeavesNoDescendants` | kernel/objects/capability-spinning/objects/RevokeOperation.cc:107-144 | what is left after a successful deletion contains nothing made from the deleted capability |
| `Revocation.RevokeOperation.Acquire` | kernel/objects/capability-spinning/objects/RevokeOperation.hh:92-96 | one request at a time gets the operation |
| `Revocation.RevokeOperation.Refuse` | kernel/objects/capability-spinning/objects/RevokeOperation.cc:60-73 | a lost race is answered once and finished once, and the operation is given back only by its holder |
| `Revocation.RevokeOperation.DeleteFor` | kernel/objects/capability-spinning/objects/RevokeOperation.cc:74-74 | the outcome of the deletion becomes the result, together with the history of the marking before it; the removed entries are vacant |
| `Revocation.RevokeOperation.SyncPhase` | kernel/objects/capability-spinning/objects/RevokeOperation.cc:74-75 | then the answer or the broadcast follows, with exactly what the objects queued, also after an error; the removed entries are vacant |
| `Revocation.RevokeOperation.RequestDelete` | kernel/objects/capability-spinning/objects/RevokeOperation.cc:55-76 | a busy operation or an entry without capability is refused without any change; otherwise the exact deletion outcome, result and queue for a zombie root, as a legal tree history |
| `Revocation.RevokeOperation.RequestRevoke` | kernel/objects/capability-spinning/objects/RevokeOperation.cc:78-105 | a busy operation or an unusable entry is refused without any change; otherwise the exact outcome, result and queue with the entry kept; after success the entry is pinned exactly if it was alone |
| `Revocation.RevokeOperation.Pin` | kernel/objects/capability-spinning/objects/RevokeOperation.cc:88-102 | a usable entry is marked as being revoked, the lock is free again |
| `Revocation.RevokeOperation.StartAsyncDelete` | kernel/objects/capability-spinning/objects/RevokeOperation.cc:197-208 | either the request is answered and the operation free, or the broadcast is under way and the operation still held |
| `Revocation.RevokeOperation.OnResponse` | kernel/objects/capability-spinning/objects/RevokeOperation.cc:210-221 | each answer triggers the oldest queued deletion, or the response and the end of the request |
| `Revocation.RevokeOperation.Complete` | kernel/objects/capability-spinning/objects/RevokeOperation.cc:197-221 | all that a request does after its synchronous phase, as one sequence of events |
| `Revocation.RevokeOperation.CompleteRequest` | kernel/objects/capability-spinning/objects/RevokeOperation.cc:197-221 | what the synchronous phase achieved is still there after the last answer |
| `Revocation.RevokeOperation.DeleteCap` | kernel/objects/capability-spinning/objects/RevokeOperation.hh:72-80 | end to end: the client is answered once, with the exact result of the deletion, the request ends once, and the objects that are deleted are exactly those that were queued for this request, in order; the list is the old one without the removed entries, all of which are vacant, also after an error; a refused request answers LOST_RACE once, deletes nothing and changes nothing |
| `Revocation.RevokeOperation.RevokeCap` | kernel/objects/capability-spinning/objects/RevokeOperation.hh:62-70 | the same for revoking; after success the entry is pinned exactly if it was alone, after a failure it still is, unless it is the root of the tree |
| `Revocation.RequestIsAnsweredOnce` | kernel/objects/capability-spinning/objects/RevokeOperation.cc:197-221 | that sequence has one response, with the synchronous result, one end of request, and every queued object deleted once in queue order after the broadcast |
| `Revocation.AsyncPhase` | kernel/objects/capability-spinning/objects/RevokeOperation.cc:210-221 | and the response comes after the last deletion |
| `CapOps.Derive` | kernel/objects/capability-utils/objects/ops.cc:56-63 | the result for every combination of parent, mint answer, target and race; on success the target holds the minted object, data and range as a usable derived capability that is no reference, and the list holds the tree with it behind its parent; otherwise list, tree and target are unchanged |
| `CapOps.Reference` | kernel/objects/capability-utils/objects/ops.cc:65-72 | the same for references: the target holds the minted object, data and range as a usable reference with the derived flag of its parent |
| `CapOps.ResetReference` | kernel/objects/capability-utils/objects/ops.hh:71-82 | a linked entry is removed from the list and is empty, and for a reference this is a legal history of the tree; an unlinked entry changes nothing |
| `TaskQueue.PullTakesOldest` | kernel/async/monitor-common/async/TaskletQueue.hh:128-170 | a pull returns the oldest item and nothing exactly if there is none |
| `ChainFifo.ExchangeRep` | kernel/async/monitor-common/async/TaskletQueue.hh:117-119 | exchanging the tail appends the tasklet to the shared chain although its link is not written yet |
| `ChainFifo.CompleteRep` | kernel/async/monitor-common/async/TaskletQueue.hh:121-125 | completing a push changes no chain |
| `ChainFifo.AcquireRep` | kernel/async/monitor-common/async/TaskletQueue.hh:101-107 | the token is taken exactly if it was free |
| `ChainFifo.ReleaseRep` | kernel/async/monitor-common/async/TaskletQueue.hh:172-178 | the token is given back exactly if nothing was pushed meanwhile |
| `ChainFifo.PullPrivateRep` | kernel/async/monitor-common/async/TaskletQueue.hh:131-137 | the private chain loses its oldest tasklet |
| `ChainFifo.PullSharedRep` | kernel/async/monitor-common/async/TaskletQueue.hh:143-149 | the shared chain is detached as a whole |
| `ChainFifo.PullWalkRep` | kernel/async/monitor-common/async/TaskletQueue.hh:151-161 | the walk waits at an incomplete push and otherwise goes to the next older tasklet |
| `ChainFifo.PullLinkRep` | kernel/async/monitor-common/async/TaskletQueue.hh:163-165 | the walked tasklets end up in the private chain in opposite order |
| `ChainFifo.PullReturnRep` | kernel/async/monitor-common/async/TaskletQueue.hh:167-169 | the walk returns the oldest one |
| `ChainFifo.PrivateExchangeRep` | kernel/async/monitor-common/async/TaskletQueue.hh:180-188 | a private push goes to the front |
| `ChainFifo.StepRep` | kernel/async/monitor-common/async/TaskletQueue.hh:101-188 | every memory access keeps the words a representation of the three chains, with any number of pushes under way, among them the one that took the token |
| `ChainFifo.StepRefines` | kernel/async/monitor-common/async/TaskletQueue.hh:101-188 | every memory access is a step of the abstract queue or no step |
| `ChainFifo.RunRefines` | kernel/async/monitor-common/async/TaskletQueue.hh:101-188 | so is every run, and nothing is lost or duplicated on the way |
| `ChainFifo.QueueIsFifo` | kernel/async/monitor-common/async/TaskletQueue.hh:101-188 | for every run what was pushed is what was returned plus what is still in the queue, each as often; without private pushes also in the order of the tail exchanges |
| `ChainFifo.NothingMeansEmpty` | kernel/async/monitor-common/async/TaskletQueue.hh:143-149 | a pull returns nothing if and only if all that was pushed before it looked at the shared tail had been returned |
| `ChainFifo.WhoIsBusy` | kernel/async/monitor-common/async/TaskletQueue.hh:101-188 | a tasklet is in use exactly while its push is not complete or it is in flight, so what was returned can be pushed again |
| `ChainFifo.ReturnedIsDetached` | kernel/async/monitor-common/async/TaskletQueue.hh:131-169 | in every run, what a pull returns has no link into the queue any more |
| `ChainFifo.PullAdvances` | kernel/async/monitor-common/async/TaskletQueue.hh:131-169 | each access of the puller brings its operation closer to its end, except that it waits at a tasklet while the push of just this tasklet is not complete |
| `ChainFifo.OthersDoNotDelay` | kernel/async/monitor-common/async/TaskletQueue.hh:101-125 | others make the operation longer only by pushing before it has looked at the shared tail |
| `ChainFifo.OneTaker` | kernel/async/monitor-common/async/TaskletQueue.hh:124-125 | at most one push at a time is about to report that it took the queue, and then the queue is taken |
| `ChainFifo.OneToken` | kernel/async/monitor-common/async/TaskletQueue.hh:101-178 | in every run the token was taken as often as it was given back, plus once if it is taken now |
| `Place.StepKeepsInv` | kernel/async/monitor-common/async/Place.cc:46-70 | every step of pushers and owner keeps the wakeup promise, the flag and the ownership of the queues |
| `Place.NoLostWakeup` | kernel/async/monitor-common/async/Place.hh:73-100 | in every interleaving, a task in a queue of a thread outside the kernel implies a pending interrupt or a pusher on its way to send one; if there is neither, both queues are empty and free |
| `Place.TasksAreRun` | kernel/async/monitor-common/async/Place.cc:46-70 | in every run each task that was pushed was started exactly once or is still in its queue, for both queues; synchronous tasks were started in the order of the pushes, normal ones too unless tasks push privately; and every task that was started has ended or is the one that runs |
| `Place.NormalAfterSync` | kernel/async/monitor-common/async/Place.cc:58-62 | in every run a normal task is started only if the owner's access just before found the sync queue empty |
| `Place.LocalTaskIsNext` | kernel/async/monitor-common/async/Place.hh:58-66 | a task that a running task pushes privately is the next normal task |
| `Place.QueuesAreDrained` | kernel/async/monitor-common/async/Place.cc:55-70 | from every reachable state, if nobody pushes, the owner leaves the kernel within a given number of accesses; unless it had begun to release the queues, it has then started every queued task in order, all have ended, and both queues are empty and free |
| `Place.NoNeedlessWakeup` | kernel/async/monitor-common/async/Place.hh:73-100 | in every run each interrupt taken was sent, at most one is sent for each release of the normal queue and at most one attempt is made for each release of the sync queue; pushing to a queue that the owner holds causes neither, and it holds them from its entry on |
| `Place.InactiveRunsNothing` | kernel/async/monitor-common/async/Place.cc:55-70 | the activity flag is set exactly from the end of the entry into the kernel until both queues are released, and no task runs while it is not set |
| `Place.OtherOrderLosesWakeup` | kernel/async/monitor-common/async/Place.cc:63-67 | with the opposite release order there is a run that leaves a synchronous task behind with nobody to wake the place |
| `DelegationMutex.StepInv` | kernel/async/mutex-delegating/async/MutexDelegating.cc:33-71 | every access of push, process and wait keeps ownership, call states and budget consistent |
| `DelegationMutex.MutualExclusion` | kernel/async/mutex-delegating/async/MutexDelegating.cc:33-71 | critical sections never overlap, each starts at most once and exactly once before its caller is out of the call, and one process run executes at most 101 of them |
| `DelegationMutex.SectionsInOrder` | kernel/async/mutex-delegating/async/MutexDelegating.cc:33-71 | in every run the calls are those of the callers in order, and the sections are started in this order, whoever executes them |
| `DelegationMutex.ProcessorIsRelieved` | kernel/async/mutex-delegating/async/MutexDelegating.cc:39-71 | in every run, a thread that processes without a break starts at most 101 sections |
| `DelegationMutex.OwnershipIsUnique` | kernel/async/mutex-delegating/async/MutexDelegating.hh:44-56 | the queue is free or owned by exactly one thread that processes or was told to take over, and it is owned while a call is pending |
| `DelegationMutex.StepReducesWork` | kernel/async/mutex-delegating/async/MutexDelegating.cc:39-71 | every step of the owner reduces a measure of the work that is left, steps of waiting threads do not touch it |
| `DelegationMutex.CallsAreServed` | kernel/async/mutex-delegating/async/MutexDelegating.cc:33-71 | while a call is pending the owner can go on and has work; without new calls the owners take at most five steps for each queued section and six more, whatever the schedule, and then nothing is pending |
| `DelegationMutex.HandoverNeedsTheMark` | kernel/async/monitor-common/async/Tasklet.hh:52-91 | after the last section of a run somebody owns the queue if and only if the mark survives the start of the tasklet |
| `DelegationMutex.StrandedForever` | kernel/async/monitor-common/async/Tasklet.hh:59-66 | otherwise the queue stays owned by nobody and no call is finished any more, whatever happens next |
| `DelegationMutex.DebugBuildStrands` | kernel/async/monitor-common/async/Tasklet.hh:59-66 | a run from the initial state with 101 callers that gets there in builds with assertions |
| `NestedMonitor.StepInv` | kernel/async/nested-monitor-delegating/async/NestedMonitorDelegating.cc:33-63 | every access of request, requestDone and response keeps the monitor consistent |
| `NestedMonitor.MonitorIsSafe` | kernel/async/nested-monitor-delegating/async/NestedMonitorDelegating.cc:33-63 | while a request is unfinished home is its place and the object has a reference besides those from outside; the response that finishes it is forwarded to that place and still finds it in home; no assertion fails, so the pull after a failed release finds a request |
| `NestedMonitor.RequestsInOrder` | kernel/async/nested-monitor-delegating/async/NestedMonitorDelegating.cc:33-63 | in every run the requests are started once each in the order in which they were made, each after the one before was finished, and the others wait in this order |
| `NestedMonitor.NoReferenceLeaks` | kernel/async/nested-monitor-delegating/async/NestedMonitorDelegating.cc:55-62 | when the monitor is at rest, exactly the references from outside are left and home is cleared |
| `NestedMonitor.OneRequestAtATime` | kernel/async/nested-monitor-delegating/async/NestedMonitorDelegating.hh:53-61 | one place at most is in the owning code, and none while a request runs or is scheduled |
| `NestedMonitor.RequestsAreServed` | kernel/async/nested-monitor-delegating/async/NestedMonitorDelegating.cc:33-63 | from every reachable state and under every schedule, without new requests the owners take at most four steps for each waiting request and six more, and they can go on as long as a request is not finished |
| `DeletionMonitor.StepInv` | kernel/async/monitor-common/async/DeletionMonitor.hh:41-59 | every access keeps the balance between scheduled, pending and still possible deletions |
| `DeletionMonitor.NotWhileReferenced` | kernel/async/monitor-common/async/DeletionMonitor.hh:41-59 | while a reference is held, the deletion task was scheduled or is on its way only as often as there were late releases and revivals |
| `DeletionMonitor.DeletionIsNeverLost` | kernel/async/monitor-common/async/DeletionMonitor.hh:41-59 | when all is quiet the task was scheduled once, plus once for each release caught between decrement and read at the store, plus once for each later revival: never zero times, and exactly once if and only if there were none of these |
| `DeletionMonitor.NothingBlocks` | kernel/async/monitor-common/async/DeletionMonitor.hh:41-59 | a held reference can always be released and the deletion can always go on |
| `DeletionMonitor.DeletionCanBeDoubled` | kernel/async/monitor-common/async/DeletionMonitor.hh:43-49 | there is a run in which the task is scheduled twice |
| `SynchronousTask.EachTaskRunsOnce` | kernel/async/synchronous-task/async/SynchronousTask.hh:46-67 | in every run, also if tasks send tasks: the task of the k-th send runs at most once and only at the place given in that send, exactly once before the sender returns, and the sender is in its call exactly until then |
| `SynchronousTask.RunsInOrder` | kernel/async/synchronous-task/async/SynchronousTask.hh:57-57 | each place executes the tasks of other places in the order of the sends |
| `SynchronousTask.NoDeadlock` | kernel/async/synchronous-task/async/SynchronousTask.hh:59-66 | in every reachable state in which a place is in a call or in a task, some place can go on |
| `SynchronousTask.Progress` | kernel/async/synchronous-task/async/SynchronousTask.hh:59-66 | along a chain of places that wait for each other the tasks get younger, so it ends at a place that can go on |
| `SynchronousTask.WorkShrinks` | kernel/async/monitor-common/async/Place.cc:46-53 | each such step does one unit of the remaining work |
| `SynchronousTask.EveryScheduleEnds` | kernel/async/synchronous-task/async/SynchronousTask.hh:46-67 | without new sends, every schedule is finished after exactly the remaining work and then nobody is in a call |
| `Broadcast.InitRing` | kernel/objects/capability-utils/objects/DeleteBroadcast.cc:35-42 | the loop links the nodes of all threads to one ring |
| `Broadcast.NextIdIsModulo` | kernel/objects/capability-utils/objects/DeleteBroadcast.cc:39-39 | the successor on the ring |
| `Broadcast.GracePeriod` | kernel/objects/capability-utils/objects/DeleteBroadcast.cc:44-62 | for any number of threads and any activity the tasklet visits threads in ring order, none twice and never the start; it answers at most once, and when it has answered each other thread was seen outside the kernel or has executed the tasklet, and none is still in a task that ran at the start |
| `Broadcast.AllPassed` | kernel/objects/capability-utils/objects/DeleteBroadcast.cc:51-62 | every thread that the tasklet has got past was seen outside the kernel or has executed it |
| `Broadcast.TaskletAdvances` | kernel/objects/capability-utils/objects/DeleteBroadcast.cc:51-62 | each own step of the tasklet brings it closer to its answer, whatever the threads do |
| `RingChannel.NoEarlyEntry` | kernel/mythos/pci-mpsc-queue/mythos/PciMsgQueueMPSC.hh:157-164 | a producer that passes the check has the position that is due in its slot, although position and sequence number are truncated |
| `RingChannel.StepInv` | kernel/mythos/pci-mpsc-queue/mythos/PciMsgQueueMPSC.hh:59-66 | every access of producers and consumer keeps slots, positions and messages consistent across wraps |
| `RingChannel.WritersExclusive` | kernel/mythos/pci-mpsc-queue/mythos/PciMsgQueueMPSC.hh:157-174 | nobody else writes or reads the slot that a producer writes |
| `RingChannel.NeverStuck` | kernel/mythos/pci-mpsc-queue/mythos/PciMsgQueueMPSC.hh:97-104 | the consumer never waits for a message that was sent while all producers wait too |
| `RingChannel.RunCorrect` | kernel/mythos/pci-mpsc-queue/mythos/PciMsgQueueMPSC.hh:97-113 | in every run what was received is a prefix of the messages sent in handle order, each receive that is over gave one message, slots are exclusive and nothing is stuck |
| `RingChannel.WrongSizeStalls` | kernel/mythos/pci-mpsc-queue/mythos/PciMsgQueueMPSC.hh:60-60 | for every number of slots that does not divide the handle range a run of one producer gets stuck after the handle wrapped |
| `RingChannel.TooManyProducers` | kernel/mythos/pci-mpsc-queue/mythos/PciMsgQueueMPSC.hh:63-66 | with one producer more than allowed, two producers get into the same slot |
| `RingChannel.RingIsCorrect` | kernel/mythos/pci-mpsc-queue/mythos/PciMsgQueueMPSC.hh:59-174 | for every number of slots of 16 bits, all runs are correct if and only if the slots divide the handle range and the producers fit |
| `LogChannel.Sink.SendPkg` | kernel/boot/kernel-amd64-knc/boot/mlog.cc:51-64 | one packet with the truncated length and the beginning of the message, whatever the slot held before |
| `LogChannel.Sink.Write` | kernel/boot/kernel-amd64-knc/boot/mlog.cc:66-75 | the loop appends exactly the fragments of the message |
| `LogChannel.Collector.Receive` | kernel/host/xmicterm/host/xmicterm.cc:291-308 | a packet extends the stream of its channel, and a short one also closes it |
| `LogChannel.Collector.Collect` | kernel/host/xmicterm/host/xmicterm.cc:284-309 | the receive loop for any number of packets |
| `LogChannel.ShortStaysWhole` | kernel/host/xmicterm/host/xmicterm.cc:299-307 | a message below 2^16 bytes comes out as one entry |
| `LogChannel.LongIsTornApart` | kernel/boot/kernel-amd64-knc/boot/mlog.cc:56-56 | a longer one comes out as at least two, because some fragment's truncated length always looks short |
| `LogChannel.OthersDoNotMatter` | kernel/host/xmicterm/host/xmicterm.cc:294-297 | what is logged for a channel depends only on the packets of that channel |
| `LogChannel.AllMessages` | kernel/host/xmicterm/host/xmicterm.cc:284-309 | the packets of several messages are logged message after message |
| `LogChannel.OneMoreWrite` | kernel/boot/kernel-amd64-knc/boot/mlog.cc:66-75 | writing a message adds it to the messages of its channel and changes no other channel |
| `LogChannel.LogIsDelivered` | kernel/host/xmicterm/host/xmicterm.cc:284-309 | for every interleaving of channels the entries of a channel are exactly its messages in order if and only if all are below 2^16 bytes, and nothing stays behind in its stream |
| `LogChannel.LogThroughRing` | kernel/boot/kernel-amd64-knc/boot/mlog.cc:51-75 | for every run of the ring, with the packets of each channel sent in order, the log of a channel is at any time a prefix of what its messages become, and after everything was received exactly its messages if and only if all are below 2^16 bytes |
| `PageTables.NumIsQuotient` | kernel/mythos/invocation/mythos/protocol/Frame.hh:61-63 | stripping nine bits a level is division by the page size |
| `PageTables.AtPageIsAligned` | kernel/mythos/invocation/mythos/protocol/Frame.hh:61-63 | an address starts a page exactly if it is a multiple of the page size |
| `PageTables.InSpaceIsRoot` | kernel/boot/init-loader-amd64/boot/MemMapper.hh:49-53 | the 48-bit addresses are those of one root table |
| `PageTables.ContainsIsCovers` | kernel/boot/init-loader-amd64/boot/MemMapper.hh:50-53 | an aligned table contains an address exactly if the page numbers agree |
| `PageTables.Reach` | kernel/boot/init-loader-amd64/boot/MemMapper.hh:43-54 | the hardware walk passes through every attached table of the index that covers the address |
| `PageTables.WalkFrame` | kernel/boot/init-loader-amd64/boot/MemMapper.hh:43-54 | the walk depends on no other slots than those of indexed tables that cover the address |
| `PageTables.PutSlots` | kernel/objects/memory-amd64/objects/PageMapAmd64.cc:173-207 | mapping a page keeps the index a description of the tables |
| `PageTables.PutWalk` | kernel/objects/memory-amd64/objects/PageMapAmd64.cc:173-207 | and changes the walk for the addresses of that page and no others |
| `PageTables.PutBig` | kernel/objects/memory-amd64/objects/PageMapAmd64.cc:173-207 | and which regions are mapped by large pages |
| `PageTables.AddSlots` | kernel/objects/memory-amd64/objects/PageMapAmd64.cc:142-165 | installing a new table keeps the index a description of the tables |
| `PageTables.AddWalk` | kernel/objects/memory-amd64/objects/PageMapAmd64.cc:142-165 | and hides the large page in its slot, if there was one, and changes nothing else |
| `PageTables.AddRegions` | kernel/objects/memory-amd64/objects/PageMapAmd64.cc:142-165 | and which regions have a lowest table or a large page |
| `PageTables.SoundIffNoneReplaced` | kernel/boot/init-loader-amd64/boot/MemMapper.hh:43-54 | all tables of the index are attached if and only if none shares its region with a large page |
| `PageTables.DetachedTable` | kernel/boot/init-loader-amd64/boot/MemMapper.cc:183-193 | entries in a table that lost its slot have no effect on any address |
| `PageTables.BigIsMapped` | kernel/objects/memory-amd64/objects/PageMapAmd64.cc:188-199 | a large page maps all addresses of its region |
| `MemMapping.SmallDone` | kernel/boot/init-loader-amd64/boot/MemMapper.cc:175-193 | a round with small pages keeps the promise about what is mapped so far, and about which tables were replaced, also in a region whose table was replaced before |
| `MemMapping.LargeDone` | kernel/boot/init-loader-amd64/boot/MemMapper.cc:175-193 | so does a round with large pages |
| `MemMapping.End` | kernel/boot/init-loader-amd64/boot/MemMapper.cc:132-195 | afterwards the index is right if and only if it was and no lowest table came, inside the range and the same 1 GiB, after a region without one while large pages were possible |
| `MemMapper.Mapper.constructor` | kernel/boot/init-loader-amd64/boot/MemMapper.hh:56-58 | the mapper starts without tables |
| `MemMapper.CheckArguments` | kernel/boot/init-loader-amd64/boot/MemMapper.cc:116-127 | which of the three refusals a call gets, if and only if: a missing frame, a range that leaves the frame, an address, length or offset that is not a multiple of 4096 |
| `MemMapper.Mapper.Alloc` | kernel/boot/init-loader-amd64/boot/CapAlloc.hh:45-51 | consecutive capability pointers until none is left |
| `MemMapper.Mapper.CreatePageMap` | kernel/boot/init-loader-amd64/boot/MemMapper.cc:58-76 | an empty table behind a free pointer, or an error and no change |
| `MemMapper.Mapper.InstallPml4` | kernel/boot/init-loader-amd64/boot/MemMapper.cc:79-85 | the exact error; on success a sound index of just the root in which no address is mapped |
| `MemMapper.Mapper.FindTables` | kernel/boot/init-loader-amd64/boot/MemMapper.cc:139-144 | for each level the one table that covers the address, or that there is none |
| `MemMapper.Mapper.NewPageMap` | kernel/boot/init-loader-amd64/boot/MemMapper.cc:151-165 | a new empty page map that nothing refers to, never refused if there is room; a failure has its cause and changes no address; success only if the index has a free entry and the slot is in the lower half |
| `MemMapper.Mapper.AddTable` | kernel/boot/init-loader-amd64/boot/MemMapper.cc:151-172 | success adds an attached table and changes the mapping only where a large page was; failure changes neither index nor mapping and has its cause; the index stays within its array and the lower half |
| `MemMapper.Mapper.AddMissing` | kernel/boot/init-loader-amd64/boot/MemMapper.cc:146-173 | afterwards all tables that are needed exist, and at most one region was split |
| `MemMapper.Mapper.MapFrame` | kernel/objects/memory-amd64/objects/PageMapAmd64.cc:173-207 | the two refusals exactly, otherwise the page in its slot |
| `MemMapper.Mapper.MapOne` | kernel/boot/init-loader-amd64/boot/MemMapper.cc:186-193 | one more page, never refused |
| `MemMapper.Mapper.MapPages` | kernel/boot/init-loader-amd64/boot/MemMapper.cc:175-193 | maps at least one page and stops only at the end of the table or of the range |
| `MemMapper.Mapper.PrepareTables` | kernel/boot/init-loader-amd64/boot/MemMapper.cc:134-182 | the table for the next pages, attached unless it was replaced before |
| `MemMapper.Mapper.MapReady` | kernel/boot/init-loader-amd64/boot/MemMapper.cc:175-193 | the pages of that table extend the range that is done |
| `MemMapper.Mapper.MapNext` | kernel/boot/init-loader-amd64/boot/MemMapper.cc:133-194 | one round extends the range that is done, or fails and leaves it; it does not fail if there is room for three tables |
| `MemMapper.Mapper.MapAll` | kernel/boot/init-loader-amd64/boot/MemMapper.cc:132-195 | the loop ends, with everything mapped or with an error that has its cause and a mapped beginning |
| `MemMapper.Mapper.MapFrameAt` | kernel/boot/init-loader-amd64/boot/MemMapper.cc:129-196 | for checked arguments, what the call promises about every byte of the range |
| `MemMapper.Mapper.Mmap` | kernel/boot/init-loader-amd64/boot/MemMapper.cc:105-196 | for every index that earlier calls can leave: a call with bad arguments gets exactly its refusal and changes nothing; success sends byte `vaddr + k` of the range to byte `offset + k` of the frame for every `k`, writable if and only if caller and frame allow it, except in regions whose lowest table had been replaced, where nothing happens; other addresses keep their mapping except in large pages the range meets; which tables are replaced, exactly; a later error has its cause and leaves a mapped beginning; with room for three tables for each region of 2 MiB in the lower half it succeeds |
| `MemMapper.ByteIsMapped` | kernel/boot/init-loader-amd64/boot/MemMapper.cc:105-196 | the promise about one byte of a successful call |
| `MemMapper.OthersUnchanged` | kernel/boot/init-loader-amd64/boot/MemMapper.cc:105-196 | no other address changes if and only if the range covers every large page it meets and can change |
| `MemMapper.LargePageIsLost` | kernel/boot/init-loader-amd64/boot/MemMapper.cc:146-172 | an input: 4 KiB at address 0 after 2 MiB there unmaps every other address of the 2 MiB |
| `MemMapper.LowestTableIsLost` | kernel/boot/init-loader-amd64/boot/MemMapper.cc:175-193 | an input: 4 MiB at address 0 after 4 KiB at 2 MiB replaces a lowest table, and later calls for that region map nothing |
| `CapLookup.Strip` | kernel/objects/capmap/objects/CapMap.cc:111-117 | the shifts strip guard and index from the top, and the index is in range |
| `CapLookup.Lookup` | kernel/objects/capmap/objects/CapMap.cc:104-123 | ends on every graph, cyclic ones included, and never leaves a map's entries |
| `CapLookup.DependsOnTop` | kernel/objects/capmap/objects/CapMap.cc:104-123 | the result depends only on the top depth bits of the pointer, for every depth |
| `CapLookup.FollowPath` | kernel/objects/capmap/objects/CapMap.cc:104-123 | a pointer that spells out a path is resolved along it, or refused exactly if writing is asked for and some map capability on the way is not writable |
| `CapLookup.TracePath` | kernel/objects/capmap/objects/CapMap.cc:104-123 | whatever is found was found along such a path, with the writable bit on every map capability if asked for writing |
| `CapLookup.LookupIsPath` | kernel/objects/capmap/objects/CapMap.cc:104-123 | both together as an equivalence, for every depth |
| `CapLookup.LookupIsRefused` | kernel/objects/capmap/objects/CapMap.cc:104-123 | lookup fails with an error if and only if the pointer leads to a map that refuses with it: NO_LOOKUP for writing through a capability without the bit, INVALID_CAPABILITY for a short depth or a wrong guard, TYPE_MISMATCH for an entry that is no map |
| `CapLookup.LookupInvertsEncode` | kernel/objects/capmap/objects/CapMap.cc:104-123 | looking up the pointer of a path gives the end of the path, for writing if and only if every map capability on the way is writable |
| `CapLookup.MintKeepsOrDrops` | kernel/objects/capmap/objects/CapMap.cc:81-85 | after any chain of mints the writable bit is there exactly if it was there before and every request kept it |

## Left out

- Weak memory orders, cache flushes and pause instructions: all accesses are sequentially consistent.
- In-place update of the words of concurrent code: `ChainFifo`, `Place`, the mutex, the monitors, the broadcast and the ring are step systems over values, because their threads interleave between single accesses.
- List operations below the granularity of locked sections: a concurrent reader between the stores of one section is not modelled.
- `deleteCap` of objects and the recursive `deleteEntry`: the object behind a capability answers success or error and may queue objects.
- That only descendants are deleted: a derived capability of the same range adopts older siblings with smaller ranges, so the run of children can contain more than was made from it.
- CapList.CapEntry.Lock: takes a free lock; waiting for a lock that another section holds is left to the order of the sections.
- CapList.CapEntry.LockPrev: takes a predecessor's lock that is free; waiting for it with retries is the waiting of one section for another.
- CapOps.ResetReference: the only entry of a list is excluded, because the code would wait for the lock it holds itself.
- Revocation.RevokeOperation.Delete: the exact outcome is for runs without concurrent insertions; single iterations (`DeleteOne`) are stated for any list and a root that changed meanwhile, and `CapTree.HistoryKeepsInv` covers every interleaving of them.
- Revocation.RevokeOperation.DeleteOne: a root that was to be deleted and still holds its capability is a zombie, which the code asserts.
- MemMapper.Mapper.InstallPml4: is called once, on a mapper without tables.
- MemMapper.Mapper.Mmap: the room that suffices is an upper bound, three tables for each region; a call can succeed with less.
- The bit packing of links and capability words, and the compare-exchange retry loops around them.
- The revoking flag of an entry whose neighbour is unlinked: the code does not preserve it.
- Which other original could cover the whole range of the tree root: insertions that would be parents of the root are excluded.
- 64-bit overflow of addresses in `MemMapper`, the executable flag, and the kernel half of the root table.
- Leaving a fixed array in `MemMapper`, that is more than 20 page maps or a slot in the kernel half, is an error result of its own, and the model stops before the store.
- `tryAcquireSend` and `trySend` of the ring, the control channels, and several consumers.
- The legacy queues and monitors that the current tasklets no longer support.
- Boot code, interrupt and descriptor tables, frames and kernel memory allocation, invocation dispatch, host tools.
