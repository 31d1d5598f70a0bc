# Verified model of sdarc

sdarc is a reference-counted pointer whose count is split over shards and whose memory is
reclaimed later, by a collector thread that reads the shards one at a time without locking. This
project models how that works and proves that it is safe, complete and bounded.

## What is modelled

**The reclamation protocol** (`Counters`, `Signals`, `Heap`, `Protocol`) is a step system with
unbounded threads, objects, shards and cells. Each atomic access is one step, and steps of all
threads and of the collector interleave freely. An object is named by an identity that is never
reused; its address is reused once it is freed, and wherever the code compares addresses the model
does too. An object's handles are a multiset of places (a local variable, a cell, the data of
another object, a weak reference) kept beside the counters; no step reads it to decide anything that
the code decides, it says who is entitled to drop, clone or dereference. An atomic cell may lie in the
data of an object; then only who can reach the object can use the cell. `compare_and_set` is two
steps, as in the code: it installs the pointer, and later adds the count it owes; `Obj.owed` lists
the counts owed, by the handle that each call borrows. The fence is asymmetric: a thread's stores to
its hazard slots and its critical section flag go through a FIFO buffer, the light fence does nothing,
the heavy fence drains all buffers. `Protocol.State.history` remembers, for the proofs only, the
objects as they were at the last heavy fence, which of them were acquired since, what tag-clearing
scans have seen, and which objects were judged while a count for them was owed.

The invariants are in `ReaderInvariant` (a thread's slots and flag agree with what it does),
`FenceInvariant` and `FencePreserved` (an object that nobody owned at the fence and that was not
acquired since can be reached only by readers the traversal sees or waits for) and
`CollectorInvariant` (what a partial sum promises). `FreeSafety` and `Upgrade` hold the theorems about
runs, `ReCheckAssertion` the one about the collector's assertion, and `CompareAndSet` says exactly when
`compare_and_set` is safe and shows a run in which it is not. `SampleRun` has runs in which an object
is freed, also beside any number of other threads, and in which one is left behind. `TwoScan`
states the theorem about reading sharded counters by itself.

What each call returns when nothing comes in between is stated place by place: `HeapEffects` for the
accesses to the heap, `Calls` for the calls of a thread, `Traversal`, `CollectorAlone` and `PassAlone` for
the collector, which alone completes every pass and frees every dead object that nobody announces.

**The collector's own code** (`CollectorEffects`, `CollectorThread`) is a class whose methods are the
loops of `src/collector.rs`. Between any two accesses the other threads take any number of steps. With
the constant `quiescent` set they take none, and the contracts say exactly what each loop computes.
`UpdateOutcomes` proves that updates in the step system meet the contract of the class.
`PassBound` bounds the passes of a deep update under arbitrary mutators, `DeepCollection` says what a
deep update frees, `ReclamationDelay` how long shallow updates take.

**The collector's books** (`Tracking`) are a class with the pending lists and the map of tracked
counters, keyed by counter slots that are recycled while objects are being freed.

**The slot allocator** (`SlotAlloc`, `SlotMaintenance`, `ShardedAlloc`, `SlotAddresses`): the state and its
atomic updates, the class with the loops that make them, again with other threads in between, and the
address arithmetic.

**Small parts**: `HazardRecords` (how threads obtain hazard records), `ShardedRwLock`, `Words` and
`TaggedWord` (the bits behind a counter), and `ShardIndex` (shard counts and the mask).

`dafny verify dfyconfig.toml` checks everything.

## Results that need a word

- *Deep collection is not complete from every state.* A dead object in RequiresReChecking with a tag
  left on one of its shards falls back to DefaultState in the first pass and is not looked at again in
  the same deep update. `DeepCollection.DeepComplete` proves that such objects are the only obstacle:
  the update frees exactly the unreachable tracked objects if and only if it starts with no such object.
  `SampleRun.SomethingIsLeftBehind` is a run of the collector and one thread that ends with such an object
  between two passes: the handle's count moves to the other shard before each read of the two scans.
- *A single scan can add up to zero although a handle exists at all times*
  (`TwoScan.SingleScanCanMiss`); the second scan cannot (`TwoScan.SecondScanBoundsTotal`).
- *The bit operations wrap at the ends of the range.* `TaggedWord.AddRefines` and `TaggedWord.SubRefines`
  say exactly when a word operation is the counter operation. The comment at
  `src/tagged_counter.rs:64` gives the range as the one proved.
- *compare_and_set can break free safety.* It installs the pointer before it adds the count. If the pointer
  is swapped out and dropped in between, the sum is one below the number of handles, and two passes
  later an object is freed that the caller still owns (`CompareAndSet.FreedWhileOwned`). The condition is
  exact: when an object is judged in a pass, nobody owned it at the pass's heavy fence if and only if
  no count for it was owed then (`CompareAndSet.JudgedRightly`), and with nothing owed the object is
  dead. With something owed the judgement is wrong, although the last owner may have gone by the time
  the object is freed. A run in which nothing is owed at any heavy fence frees nothing wrongly
  (`CompareAndSet.CarefulIsSafe`), and neither does a run without `compare_and_set`. The theorems of
  `FreeSafety` are about all runs; they except the objects that were judged against this condition
  (`history.risky`). The collector's assertion that a sum is not negative is not affected
  (`ReCheckAssertion.NeverNegative`).

## Model

| member | source | states |
|---|---|---|
| Counters.FreshCounters | src/sdarc.rs:183-196 | a new object's shards, all untagged, add up to one handle |
| Signals.DrainIssue | src/atomic_sdarc.rs:525-541 | a thread sees its own slot and flag stores at once, whatever has landed in memory so far |
| Signals.FlushKeepsSettledSlot | src/atomic_sdarc.rs:515-541 | a slot without a store in flight keeps its value in memory when other stores land |
| Heap.KeepsHeapInv | src/sdarc.rs:183-242 | every atomic access to an object or cell, on whatever shard, keeps the sum of the shards equal to the handles less the counts owed, cells and weak references consistent, and addresses of unfreed objects distinct |
| Heap.ObjectEvolves | src/weak_sdarc.rs:79-115 | no access changes an address, revives a freed object, re-initializes a weak reference or sets a back reference again |
| Heap.UnownedOwesNothing | src/atomic_sdarc.rs:325-356 | nothing is owed for an object without handles, as a pending `compare_and_set` borrows one |
| HeapEffects.ExchangeEffect | src/atomic_sdarc.rs:296-302 | a swap puts the new pointer into the cell and its handle with it, gives the thread the handle to the old one, and changes no count, no other cell and no other object |
| HeapEffects.InstallEffect | src/atomic_sdarc.rs:330-335 | the first half of `compare_and_set` does so with an additional handle, whose count it owes |
| HeapEffects.CompensateEffect | src/atomic_sdarc.rs:344-349 | the second half raises the sum by one, removes exactly that debt, and changes no owner, tag, cell or other object |
| Protocol.FirstNull | src/atomic_sdarc.rs:784-799 | publishing takes the first null slot, and fails only when all are taken |
| ReaderInvariant.KeepsReaderInv | src/atomic_sdarc.rs:719-810 | every step of every thread keeps its flag set exactly inside the critical section and its non-null slots exactly those of its guards and of a borrow under way |
| FenceInvariant.SuspectIsDead | src/atomic_sdarc.rs:620-640 | once the traversal is over, an object unowned and without back reference at the fence and not acquired since, whose address was not found, is out of reach of every location, reader and guard |
| FenceInvariant.DeadStays | src/collector.rs:181-219 | no step brings such an object back: it gets no handle, no reader, no guard and no count |
| FencePreserved.FenceEstablishesInv | src/atomic_sdarc.rs:620-640 | the heavy fence itself establishes the handover invariant, as it makes every reader's signal visible |
| FencePreserved.KeepsFenceInv | src/atomic_sdarc.rs:481-496 | every other step keeps it, whatever is still buffered |
| CollectorInvariant.KeepsCollectorInv | src/collector.rs:157-227 | every step keeps what the collector's partial sums and states promise about the object at the last fence |
| CollectorInvariant.ReSumEnds | src/collector.rs:275-292 | a re-check that met no tag has counted at least what the shards held at the fence, and if that is zero an abandoned object has not been acquired since |
| CollectorInvariant.ReadyIsDead | src/collector.rs:189-209 | judging an object ready to be freed is justified when no count for it was owed at the fence: it is out of reach |
| Calls.NewCall | src/sdarc.rs:182-197 | a new object has one handle, the creator's, counted once, no tag, no debt and no weak reference |
| Calls.SubmitCall | src/sdarc.rs:31-40 | its submission makes it pending and changes nothing else |
| Calls.TakeCall | src/collector.rs:475-490 | between passes a pending object can be taken over, in the default state |
| Calls.CloneCall | src/sdarc.rs:199-213 | whoever can name an owned object can clone it: one handle more, counted on the shard at hand, no tag changed |
| Calls.CloneGuardCall | src/atomic_sdarc.rs:661-667 | cloning what a guard borrows gives one counted handle more |
| Calls.MoveCall | src/sdarc.rs:58-64 | moving a handle changes where it is and no count |
| Calls.DropCall | src/sdarc.rs:216-241 | a drop takes one handle and one count away and leaves a tag on its shard only |
| Calls.DestroyDropCall | src/sdarc.rs:290-294 | the destructor of a freed object can drop every handle the object held, counted and tagged |
| Calls.DestroyCellCall | src/atomic_sdarc.rs:385-389 | and empty every cell in it |
| Calls.SwapCall | src/atomic_sdarc.rs:296-302 | afterwards the cell reads the new pointer, and the thread has the old handle |
| Calls.CompareAndSetCall | src/atomic_sdarc.rs:325-356 | undisturbed, a successful `compare_and_set` amounts to a clone into the cell and owes nothing |
| Calls.FirstDowngradeCall | src/weak_sdarc.rs:103-110 | the first downgrade makes a weak inner object that refers back, with one handle in the object |
| Calls.DowngradeCall | src/weak_sdarc.rs:103-115 | every downgrade returns a counted handle to the weak inner object |
| Calls.LoadCall | src/atomic_sdarc.rs:813-835 | `load_owned` and `upgrade` of a location that holds an object return with exactly one more counted handle to it, the thread's signals as before |
| Calls.LoadNullCall | src/atomic_sdarc.rs:819-823 | of a null location they return nothing and change nothing |
| Calls.BorrowCall | src/atomic_sdarc.rs:719-764 | a borrow gives a guard in the first free slot, with the object's address in it and the heap unchanged |
| Calls.BorrowNullCall | src/atomic_sdarc.rs:722-729 | a borrow from a null location ends at once and changes nothing |
| Calls.BorrowOwnedCall | src/atomic_sdarc.rs:691-711 | with all slots taken it gives an owned handle instead |
| Calls.BorrowRetries | src/atomic_sdarc.rs:765-771 | if the pointer has changed, the slot is cleared again and the borrow falls back to an owned load |
| Calls.UnborrowCall | src/atomic_sdarc.rs:801-810 | dropping a guard clears its slot and no other |
| Calls.FlushStep | src/atomic_sdarc.rs:515-541 | a store landing in memory changes nothing for its thread, and one store fewer is under way |
| Traversal.TraversalEnds | src/atomic_sdarc.rs:620-640 | with all flags off the traversal ends after one step for each slot, one for each flag and one more, and has found exactly the addresses in the slots |
| Traversal.FlagStep | src/atomic_sdarc.rs:503-512 | a record whose flag is off is followed by the next one; while it is on, the collector polls |
| CollectorAlone.UpdateAlone | src/collector.rs:372-378 | undisturbed, the visit of an object comes to its end with exactly the update that the class contract states, or puts an announced object back to DefaultState |
| PassAlone.PassCompletes | src/collector.rs:404-449 | from any reachable state between passes with no thread in a critical section, the collector alone completes a pass: hazards are what threads have announced, every tracked object gets exactly its update, and exactly what is ready is freed |
| PassAlone.DeadIsFreed | src/collector.rs:157-227 | two such passes free every object in DefaultState without owner, back reference and announced address, whatever else there is |
| FreeSafety.KeepsInv | src/collector.rs:157-227 | all these invariants together survive every step |
| FreeSafety.FreedIsUnreachable | src/collector.rs:157-227 | in every run an object ready to be freed, or freed, has no handle, is in no cell and no back reference, is loaded by no reader between load and increment, and has no borrow guard; also with concurrent upgrades and weak borrows; the exception is an object judged while a count for it was owed |
| FreeSafety.AccessibleIsLive | src/sdarc.rs:130-136 | whoever has a handle to an object or borrows it finds its data, and the cells in it, unfreed |
| FreeSafety.NoUseAfterFree | src/collector.rs:358-471 | no step of any run, of a user thread or the collector, reads or writes the memory of a freed object, its counters, its data or a cell in its data; same exception |
| FreeSafety.DeadForEver | src/collector.rs:451-471 | along any run an object out of reach stays so, is freed at most once, and its identity is never confused with a later object at its address |
| FreeSafety.OwnershipConserved | src/sdarc.rs:199-242 | in every reachable state the shards of an object add up to its handles exactly if nothing is owed for it, and fall short by what is owed otherwise; a cell holds exactly one handle to what it points to |
| FreeSafety.ReCheckSum | src/collector.rs:181-219 | an untagged sum is at least the handles at the fence less the counts owed then, so it is zero only if nobody owned the object when nothing was owed |
| ReCheckAssertion.KeepsSeenInv | src/collector.rs:248-259 | every step keeps this: a shard without a tag holds at least what the clearing scan read, and an object is re-checked only after a scan that added up to zero |
| ReCheckAssertion.NeverNegative | src/collector.rs:210-214 | the assertion that an untagged non-zero sum is positive never fires in any run, `compare_and_set` or not |
| FreeSafety.UpdateNeverReady | src/collector.rs:223-225 | the state update never meets an object that is ready to be freed, so its panic is unreachable |
| FreeSafety.WeakInnerLifetime | src/weak_sdarc.rs:26-34 | the weak inner object outlives the object it belongs to, and when it dies its back reference is null, as its destructor asserts; same exception |
| FreeSafety.BackRefNeverReturns | src/weak_sdarc.rs:79-100 | along any run a cleared back reference stays null |
| FreeSafety.HazardBookkeeping | src/atomic_sdarc.rs:575-587 | between operations a thread's non-null slots are exactly those of its live guards and hold their addresses, whatever the order of drops, and its flag is off; so the release assertions hold once its guards are gone |
| FreeSafety.FenceHandover | src/atomic_sdarc.rs:741-770 | for every object without owner and back reference at the fence that nobody has acquired since, with tags or without: every reader is either visible to the traversal in memory, or cannot get the object from any location any more, recycled addresses included |
| FreeSafety.FencePublishes | src/atomic_sdarc.rs:620-625 | after the heavy fence every flag and slot that a thread had issued is in memory |
| Upgrade.UpgradeWhileOwned | src/weak_sdarc.rs:134-145 | over any run in which the object always has an owner, and nothing is owed for it at a fence, an upgrade through its weak reference returns a new counted handle to it |
| Upgrade.CutNeedsUnowned | src/collector.rs:189-209 | the collector clears a back reference only of an object that nobody owned at the last fence, if nothing was owed |
| SampleRun.SomethingIsFreed | src/collector.rs:157-227 | some reachable state contains an object that was freed rightly |
| SampleRun.FreedBesideThreads | src/atomic_sdarc.rs:628-637 | and so does one with any number of threads that have hazard records |
| SampleRun.SomethingIsLeftBehind | src/collector.rs:181-188 | some reachable state between two passes has a dead object in re-check with a tag left, which deep collection does not free |
| CompareAndSet.JudgedRightly | src/atomic_sdarc.rs:325-356 | the judgement that nobody owned an object at the fence is right if and only if no `compare_and_set` owed a count for it then; if so the object is dead |
| CompareAndSet.CarefulIsSafe | src/atomic_sdarc.rs:325-356 | a run that issues no heavy fence inside a `compare_and_set` judges no object wrongly |
| CompareAndSet.WithoutItIsCareful | src/atomic_sdarc.rs:325-356 | nor does a run without `compare_and_set`, whatever else it does |
| CompareAndSet.OwedIsPending | src/atomic_sdarc.rs:330-349 | over any run what is owed is exactly what unfinished calls owe, call by call |
| CompareAndSet.FinishedOwesNothing | src/atomic_sdarc.rs:344-352 | once every call on an object has finished nothing is owed, and its shards add up to its handles |
| CompareAndSet.SumCanFallShort | src/atomic_sdarc.rs:330-349 | a run after which the sum is zero while a thread owns the object |
| CompareAndSet.FreedWhileOwned | src/atomic_sdarc.rs:330-349 | a run after which the object is freed while that thread owns it and is about to add its count there |
| UpdateOutcomes.UpdateAgrees | src/collector.rs:157-227 | a whole update in the step system, with any steps of others in between, has an outcome that the contract of the class allows, and makes its object ready only if it is dead |
| TwoScan.ShardGrows | src/tagged_counter.rs:109-151 | a shard read untagged, after its tag was cleared, has had no decrement since, so it only grew |
| TwoScan.SecondScanBoundsTotal | src/collector.rs:248-292 | the untagged sum of the second scan is at least the true total at any moment between the scans; if equal, nothing was counted between that moment and the reading of each shard |
| TwoScan.ZeroMeansUnowned | src/tagged_counter.rs:27-36 | with totals never negative, a second sum of zero means that nobody owned the object at any moment between the scans |
| TwoScan.SingleScanCanMiss | src/tagged_counter.rs:8-15 | one scan can add up to zero although the total is at least one at all times |
| PassBound.PassDecreases | src/collector.rs:404-449 | whatever other threads do, a pass over a non-empty re-check set decreases a measure of tracked objects, uncleared back references and the re-check set |
| PassBound.DeepLoopBound | src/collector.rs:316-355 | with n objects tracked at most 4n + 2 passes follow, so with at most 24999 the cap of 100000 is out of reach |
| CollectorThread.Collector.SumIfUntagged | src/collector.rs:275-292 | with others active between reads, a sum returned is at least the handles at the start; standing still, it is nothing if some tag is set and the sum otherwise |
| CollectorThread.Collector.ClearTagsAndSum | src/collector.rs:248-259 | with others active, the sum is that of counts which are lower bounds afterwards wherever no tag is back; standing still, every tag is cleared and the sum returned |
| CollectorThread.Collector.RelaxedSum | src/collector.rs:234-246 | the pre-check is the sum when others stand still, and only a filter otherwise |
| CollectorThread.Collector.UpdateState | src/collector.rs:157-227 | the outcomes possible under interference, and the exact new state when others stand still |
| CollectorThread.Collector.ClearWeakBackRef | src/weak_sdarc.rs:79-100 | a back reference that is set is cleared and the object re-checked once more; otherwise it is ready to be freed |
| CollectorThread.Collector.UpdateCounters | src/collector.rs:372-390 | exactly the tracked objects of the given keys are updated, once each, and sorted into those to free and those to re-check |
| CollectorThread.Collector.FreePointers | src/collector.rs:451-471 | exactly the given objects are freed, and every handle they held is dropped, tagged and noted for re-checking |
| CollectorThread.Collector.OnePass | src/collector.rs:404-449 | every pass is one that the termination measure covers, and standing still it does exactly the updates and frees of its keys |
| CollectorThread.Collector.TakeNewCountersToTrack | src/collector.rs:475-490 | everything pending at the start is tracked in the default state, while others go on submitting; no other state changes |
| CollectorThread.Collector.DeepPasses | src/collector.rs:307-356 | the loop ends within 4n + 2 passes under any interference, finishes when at most 24999 objects are tracked, and standing still has freed exactly the unreachable tracked objects, if and only if none was left behind at the start |
| CollectorThread.Collector.Update | src/collector.rs:295-356 | one update: track what is pending, then one shallow pass or the deep loop, with its bound and its result |
| CollectorEffects.PassIsPass | src/collector.rs:404-449 | the collector's own updates and frees make up a pass in the sense of the termination argument |
| DeepCollection.FirstPass | src/collector.rs:358-402 | after the pass over everything tracked, every dead object is about to be re-checked, except those left behind |
| DeepCollection.NextPass | src/collector.rs:404-449 | every further pass keeps that; handles disappear only with the freed objects that held them |
| DeepCollection.PathSurvives | src/collector.rs:404-449 | no deep update frees an object that a path of handles from outside leads to |
| DeepCollection.SurvivorIsReachable | src/collector.rs:404-449 | with an acyclic graph, whatever survives a finished deep update was reachable from outside |
| DeepCollection.DeepComplete | src/collector.rs:307-449 | a finished deep update has freed exactly the unreachable tracked objects, if and only if it began with no dead object in re-check with a tag |
| ReclamationDelay.DelayIsExact | src/collector.rs:157-227 | a dead object is freed by exactly the second shallow pass from DefaultState, the third if its back reference is set, the third (or fourth) from re-check with a tag, the first (or second) without |
| ReclamationDelay.ChainDelay | src/collector.rs:103-109 | a dead chain of n objects without weak references is gone after 2n shallow passes and not after 2n - 1 |
| Tracking.CollectorThreadState.OnNewSdarcAllocated | src/collector.rs:70-80 | a new object goes to the end of one pending list, and the books stay a bijection |
| Tracking.CollectorThreadState.TrackOne | src/collector.rs:483-488 | no key is ever replaced, so the assertion after the insertion holds |
| Tracking.CollectorThreadState.TakeNewCountersToTrack | src/collector.rs:475-490 | what was pending is tracked afterwards, while other threads go on submitting |
| Tracking.CollectorThreadState.UpdateCounters | src/collector.rs:372-390 | every entry of the keys gets the state decided for it, and the list of slots to free has no duplicates and is exactly the entries that got ready |
| Tracking.CollectorThreadState.FreePointers | src/collector.rs:451-471 | each listed entry is removed and freed exactly once, although destructors allocate in recycled slots; both assertions hold |
| Tracking.LiveSlotsAreBooked | src/collector.rs:404-490 | pending and tracked slots are disjoint, pending ones distinct, and together they are the slots of submitted unfreed objects |
| HazardRecords.KeepsRecord | src/atomic_sdarc.rs:555-587 | each step keeps a used record with exactly one holder and an unused one with none |
| HazardRecords.ReuseCall | src/atomic_sdarc.rs:555-562 | undisturbed, a thread gets the first record that is not used |
| HazardRecords.PushCall | src/atomic_sdarc.rs:564-573 | and a new one if all are used |
| HazardRecords.ReleaseCall | src/atomic_sdarc.rs:585-587 | a thread that ends gives back its own record and no other |
| HazardRecords.OneHolder | src/atomic_sdarc.rs:555-587 | in every run no two threads have the same record, and the flag of a record being released is set, as the code asserts |
| SlotAlloc.UsedIsListed | src/sharded_alloc.rs:284-316 | the slots in use are the used slots of the units in all groups, the temporary one included |
| SlotAlloc.KeepsInv | src/sharded_alloc.rs:199-237 | every atomic or lock-protected update, also mid-swap, leaves each unit listed in exactly one place, blocks apart, and candidates in range and distinct |
| SlotAlloc.Refines | src/sharded_alloc.rs:114-132 | each update acts on the set of slots in use as claim, clear or nothing; a claimed slot was free, a cleared one in use |
| SlotAlloc.OtherIsStable | src/sharded_alloc.rs:273-282 | what the holder of a group's lock relies on: its group stays, its units stay allocated, their slots only become free |
| SlotMaintenance.SearchFails | src/sharded_alloc.rs:217-223 | taking full candidates off the front runs out exactly when no candidate has a free slot |
| SlotMaintenance.KeptInOrder | src/sharded_alloc.rs:228-228 | the units that stay keep their order |
| SlotMaintenance.FreePositionsAscend | src/sharded_alloc.rs:230-236 | the candidates come out in ascending order |
| SlotMaintenance.MaintainedGroupIsTight | src/sharded_alloc.rs:227-237 | undisturbed maintenance leaves exactly the units in use and lists exactly those with a free slot |
| SlotMaintenance.GrowsOnlyWhenFull | src/sharded_alloc.rs:199-215 | as long as all units with a free slot are candidates, an allocation makes a new unit exactly when the group has no free slot |
| SlotMaintenance.AllocatedKeepsComplete | src/sharded_alloc.rs:204-224 | an allocation keeps all units with a free slot among the candidates, a new unit included |
| SlotMaintenance.MaintainedIsComplete | src/sharded_alloc.rs:227-237 | after maintenance all units with a free slot are candidates |
| SlotMaintenance.EveryAllocationFills | src/sharded_alloc.rs:199-225 | so from an empty or a maintained group this holds of every allocation of any sequence |
| SlotMaintenance.NthAllocation | src/sharded_alloc.rs:199-225 | from an empty group the nth allocation, counted from 0, gets slot n mod 16 of unit n div 16 |
| SlotMaintenance.PruneSpares | src/sharded_alloc.rs:172-180 | dropping an empty unit takes no slot in use with it |
| ShardedAlloc.FullShardAlloc.Interfere | src/sharded_alloc.rs:273-316 | whatever other threads do, the invariant holds, slots that are not deallocated by their owner stay live, and the group that this thread has to itself is stable |
| ShardedAlloc.FullShardAlloc.AllocateInUnit | src/sharded_alloc.rs:114-132 | a slot found was free at the moment of its claim; undisturbed it is the first free one, and none means that all are used |
| ShardedAlloc.FullShardAlloc.Allocate | src/sharded_alloc.rs:199-225 | terminates, as each failed try shortens the candidates, and returns a slot that was not live at its claim; undisturbed, which slot and which new state exactly |
| ShardedAlloc.FullShardAlloc.DeallocateWithoutDropping | src/sharded_alloc.rs:469-482 | the owner's slot leaves the live set, nothing else does, and the assertion on the old flag holds |
| ShardedAlloc.FullShardAlloc.IsAnySlotUsed | src/sharded_alloc.rs:144-150 | a unit found empty is empty when the scan ends, although flags are read one by one; one found in use was in use when it began |
| ShardedAlloc.FullShardAlloc.RetainUsed | src/sharded_alloc.rs:228-228 | no unit is dropped while it holds a slot that nobody deallocates, and the destructor's assertion holds; undisturbed exactly the units in use stay, in order |
| ShardedAlloc.FullShardAlloc.DoMaintenance | src/sharded_alloc.rs:227-237 | with concurrent deallocations: kept units were in use at the start, candidates have a free slot at the end, others were full at the start |
| ShardedAlloc.FullShardAlloc.DoMaintenanceByCollector | src/sharded_alloc.rs:284-316 | the swaps lose nothing: slots that nobody deallocates stay live; undisturbed every group ends up maintained and the live set unchanged |
| SlotAddresses.InBounds | src/sharded_alloc.rs:67-70 | the word of a slot for a shard lies in its unit's block, behind all usage flags, and is aligned |
| SlotAddresses.WordsAreApart | src/sharded_alloc.rs:449-457 | words of different slots or shards do not overlap, in one unit or in two, nor do they overlap a usage flag |
| SlotAddresses.Strides | src/sharded_alloc.rs:449-457 | each shard's word is one cache line after the one before, the first after the flag, and the last word ends the block |
| SlotAddresses.ShardsHaveTheirOwnLines | src/sharded_alloc.rs:485-490 | words of different shards are never in the same cache line |
| ShardedRwLock.KeepsInv | src/sharded_rwlock.rs:32-103 | every lock operation keeps each shard's lock in agreement with what each thread holds |
| ShardedRwLock.WriterExcludes | src/sharded_rwlock.rs:54-70 | in every reachable state a thread with a write guard is the only one with a guard |
| ShardedRwLock.ReadersSeeStableData | src/sharded_rwlock.rs:76-87 | no step changes the data while some thread has a read guard |
| ShardedRwLock.WritersSeeTheirOwnData | src/sharded_rwlock.rs:89-117 | while a thread has the write guard, only its own writes change the data |
| ShardedRwLock.TryReadCall | src/sharded_rwlock.rs:41-52 | `try_read` returns a guard exactly if no writer is in the way |
| ShardedRwLock.ReadCall | src/sharded_rwlock.rs:32-39 | `read` waits exactly for the writers in the way, returns a guard, and dropping it undoes everything |
| ShardedRwLock.WriteCall | src/sharded_rwlock.rs:54-70 | `write` alone locks every shard once and returns a guard |
| ShardedRwLock.DropWriteCall | src/sharded_rwlock.rs:93-103 | dropping a write guard never waits and leaves no shard locked by the thread |
| ShardedRwLock.NoDeadlock | src/sharded_rwlock.rs:54-70 | unless all are idle some thread can go on, also if readers queue behind waiting writers |
| ShardedRwLock.EveryCallCompletes | src/sharded_rwlock.rs:32-103 | when no new call starts, any schedule ends after exactly the number of lock operations left over, and is stuck only when every call has completed and every guard is dropped |
| Words.ValueOfBits | src/tagged_counter.rs:71-73 | every number in range is the value of its two's complement word |
| Words.BitsOfValue | src/tagged_counter.rs:71-73 | and every word is that of its value |
| Words.ShiftRightHalves | src/tagged_counter.rs:88-91 | the arithmetic shift halves and rounds down, for negative words too |
| TaggedWord.BitsMean | src/tagged_counter.rs:87-151 | the shift, the masks, the or and the subtraction on the word are the arithmetic that the class works with |
| TaggedWord.EncodeDecode | src/tagged_counter.rs:71-96 | words and counters in range correspond one to one |
| TaggedWord.AddRefines | src/tagged_counter.rs:109-111 | adding two is one more reference with the tag kept, exactly below the maximum, where it wraps |
| TaggedWord.SubRefines | src/tagged_counter.rs:115-138 | or-ing one and subtracting two is one reference fewer with the tag set, whatever the sign, exactly above the minimum, where it wraps |
| TaggedWord.MaskRefines | src/tagged_counter.rs:146-151 | and-ing the complement of one, as bits, clears the tag and keeps the count |
| TaggedWord.WordPerforms | src/tagged_counter.rs:109-151 | the three word operations are increment, decrement-and-tag and clear-tag of a counter that wraps |
| TaggedWord.NothingWraps | src/tagged_counter.rs:64-64 | a word that has seen at most 2^62 - 1 accesses has never wrapped |
| TaggedWord.AtomicTaggedCounter.IncrementRefCount | src/tagged_counter.rs:109-111 | one more reference in the word, as one access |
| TaggedWord.AtomicTaggedCounter.FetchAndClearTag | src/tagged_counter.rs:146-151 | returns the old counter and clears the tag, as one access |
| TaggedWord.AtomicTaggedCounter.DecrementRefCountAndSetTag | src/tagged_counter.rs:115-138 | with spurious failures and other threads' accesses before every try, the loop takes effect as exactly one decrement, after the accesses that came first |
| ShardIndex.RoundsUp | src/shard_index.rs:19-39 | the shard count is the smallest power of two not below the number, capped at 256 |
| ShardIndex.ModuloOfRounded | src/shard_index.rs:29-47 | for a rounded count the mask is the count less one, and masking is the remainder |
| ShardIndex.ModuloIsRemainder | src/shard_index.rs:45-47 | masking is the remainder for every shard count, and the result fits a byte |

## Left out

- A `compare_and_set` that fails or installs null is not a step of its own: it does nothing, or what a swap to null does. The comparison is left out: the step may replace whatever the cell holds. The handle that a call borrows is neither moved nor dropped before the call ends, which Rust's borrow ensures; a destructor of an object wrongly freed waits for it, too.
- The memory model: stores to hazard slots and flags are buffered in order per thread, atomic pointers and counters take effect at once. That a heavy fence empties every buffer and a light one keeps a thread's own order is the assumption. The source's argument from acquire and release orderings is not modelled, nor is the relaxed pre-check's licence to see old values.
- ReaderInvariant.KeepsReaderInv: a thread keeps its hazard record for ever in the protocol; obtaining and releasing records is the separate system `HazardRecords`.
- A cell has a home, the object whose data it is part of, or none; no step creates or drops a cell, and one without a home, on a stack or in a static, is there throughout. A destructor moves, drops and swaps out what its own object holds, cells included, and this is not counted as touching a freed object; it does not load from or borrow from cells there.
- Dereferencing and cloning a `Sdarc` need that some handle to the object exists, whoever has it: a more permissive rule than Rust's, so the theorems cover more runs.
- `sync_to` and the non-null `AtomicSdarc` wrapper add nothing to loads and swaps of a cell.
- CollectorThread.Collector.SumIfUntagged: the other threads of the class do not use `compare_and_set`; in the step system they do.
- CollectorThread.Collector.Update: the allocator maintenance that ends an update is `ShardedAlloc.FullShardAlloc.DoMaintenanceByCollector`, and is not called here.
- DeepCollection.DeepComplete: a handle in a cell of an object counts as a handle in the object's data. User destructors drop the handles of their object and do nothing else, which is what standing still means; with destructors that create or keep objects `CollectorThread.Collector.DeepPasses` still gives the bound on the passes.
- CollectorThread.Collector.OnePass: hazards are an arbitrary set when other threads are active; that they protect the right objects is proved in the step system.
- The code of `src/atomic_sdarc.rs`, `src/sdarc.rs` and `src/weak_sdarc.rs` appears as the steps of `Protocol`, one per atomic access, and not as methods: what matters about it is how it interleaves. `ShardsArr`, a vector filled in a loop, is left out as easy.
- ShardedRwLock is a step system and not a class, as waiting for a lock has no counterpart in a sequential method.
- ShardedAlloc.FullShardAlloc: the groups are values in fields of one class and not objects of their own; each is used only under its mutex. The values that are written into a new slot, and unwinding when their constructor panics, are not modelled. Memory never runs out.
- TaggedWord.AtomicTaggedCounter.DecrementRefCountAndSetTag: the interference before each try is a finite list given as a parameter; a loop that fails for ever is not a run.
- Tracking.CollectorThreadState.UpdateCounters: what the update of an entry comes to is a parameter here; that is the subject of `CollectorThread`.
- Panicking destructors, vtables and type erasure, pointer provenance, thread start and parking, notification, logging, environment variables, the platform's CPU index, counter estimates and the status report.
