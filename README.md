# Nachos priority scheduler and alarm, modelled in Dafny

This project models two parts of the Nachos teaching kernel (package
`nachos.threads`).

**The priority scheduler** (`PriorityScheduler.java`):
- Each thread has a scheduling record: a base priority, a list of
  effective-priority *slots*, the time the record was created, and the set
  of queues the thread waits on.
- Slot 0 mirrors the base priority. Each transferring queue the thread
  acquires appends one more slot, and the queue remembers that slot's
  index (`index_lockingThread`).
- A thread's effective priority is the largest of its slots.
- Each thread queue has a transfer flag, its waiters, an owner
  (`lockingThread`) and the owner's slot index.
- A waiter donates by raising the owner's slot for that queue:
  `waitForAccess` donates the waiter's effective priority, and
  `setPriority` re-donates through every queue the thread waits on.
- `nextThread` removes the outgoing owner's slot. It then hands the queue to
  the waiter the comparator puts first: highest effective priority, then
  earliest record creation.

**The alarm** (`Alarm.java`): `waitUntil(x)` appends a (thread, now + x)
entry to a list. Each timer interrupt looks only at the head of the list
and wakes and removes it once its wake time has come.

## Layout

- `common.dfy`: module `Common`. Thread identities and `Option`, which
  stands for a Java reference that may be null.
- `lists.dfy`: module `Lists`. The `java.util` operations the scheduler
  uses, stated on sequences:
  - `Collections.max`;
  - `ArrayList.remove(int)`;
  - `Collection.remove(Object)`;
  - `LinkedHashSet.add`.
- `priority_model.dfy`: module `PriorityModel`.
  - The records as datatypes: `ThreadState`, `QueueState`, and `State`,
    which holds one map of each.
  - The comparator, the waiter choice, and one-hop donation.
  - Each scheduler operation as a function from `State` to `State`.
  - The invariant `Consistent`: every record is well formed; every queue a
    thread waits on exists and is not owned by it; and every queue's owner
    and waiters have records, with index -1 or an owned slot of at least 1.
- `priority_properties.dfy`: module `PriorityProperties`. What each
  operation guarantees, proved over those functions:
  - each operation keeps the invariant;
  - its effect on owners, waiters and slots;
  - donation stops after one hop;
  - a donation is never withdrawn.
- `priority_scheduler.dfy`: module `PriorityScheduler`. Class `Scheduler`
  holds the maps of records and queues and updates them in place, in the
  order the Java code does.
  - Each method ensures that the new state equals the matching
    `PriorityModel` function applied to the old state.
  - Every method also ensures the invariant, except four inner helpers:
    `RemoveEffectivePriority`, `SetEffectivePriority`, `DonateThrough` and
    `StateAcquire`. They state only the new state, and their callers prove
    the invariant.
  - The donation loop of `setPriority` is a `for` loop with invariants. Like
    the Java code (PriorityScheduler.java:280), it reads t's effective
    priority again on every pass. t owns none of the queues it waits on
    (`NotOwnerOfWaitedQueues`), so every pass reads the same value, and the
    loop ends in `Donate` with that one value.
- `self_tests.dfy`: module `SelfTestScenario`. The scenario of
  `SelfTests.testPriorityScheduler`, replayed line by line over the model.
  Its states are concrete; the lemmas about them compute what each line
  does.
- `alarm.dfy`: module `AlarmClock`. Java `long` addition with wrap-around,
  one timer tick as a function, runs of ticks, and class `Alarm` with its
  list field.

## Where the code, its documentation and its test disagree

The model follows the code in every case below.

- **Donation goes one hop.**
  - The class comment (PriorityScheduler.java:32-33) asks for donation
    through locks. SelfTests.java:35 expects kt_1's priority 6 to travel
    along the chain to kt_4, two hops beyond the direct owner kt_2.
    SelfTests.java:43 expects the same of kt_5's priority 7, after kt_5
    starts waiting on tq1 (SelfTests.java:39-41).
  - `setEffectivePriority` (PriorityScheduler.java:256-259) raises one slot
    of the direct owner and stops there.
  - `SetPriorityOneHop` and `DonateOneHop` prove that no thread beyond the
    direct owners changes.
  - The test's chain kt_1 → tq1 → kt_2 → tq2 → kt_3 → tq3 → kt_4 therefore
    leaves kt_4 at 1 (`EffectivePriorities`):
    - the assertion at SelfTests.java:35 expects 6, fails, and ends the
      test there;
    - the states after line 35 replay the remaining lines as if that
      assertion were skipped. In that replay the 7 expected at
      SelfTests.java:43 fails too, and the 1 expected at SelfTests.java:47
      holds.
- **Donations are not withdrawn.** `setEffectivePriority` only ever raises
  a slot. A slot goes away only when `nextThread` or `waitForAccess`
  removes the owner's whole slot for the queue. Lowering a donor's
  priority, or the donor leaving through `acquire`, does not lower the
  owner's slot (`SetPriorityNeverWithdraws`). An owner's effective
  priority is therefore not recomputed from its current waiters.
- **setPriority with the current priority is not a no-op.** The guard at
  PriorityScheduler.java:267 is commented out, so the thread's effective
  priority is donated again. `SamePriorityStillDonates` exhibits a state
  where this lifts an owner from 1 to 5.
- **A direct acquire keeps the previous owner's slot.** The eviction at
  PriorityScheduler.java:338-343 is commented out (`AcquireGrants`).
- **The tie-break uses the record's creation time.** It is `init_time`,
  stamped once at PriorityScheduler.java:225, not the time of the current
  wait.
- **nextThread on an empty queue keeps the owner.** The owner stays, with
  index -1 (`NextThreadNullIffEmpty`).
- **The alarm wakes at most one thread per tick.**
  - The comment at Alarm.java:76-83 promises a wake-up at the first
    interrupt after the wake time. The code inspects only the head of a
    list kept in call order (Alarm.java:39-48).
  - A due thread behind a later one stays asleep (`DueThreadStaysAsleep`,
    `HeadBlocks`).
  - Each tick removes at most one entry, and only one whose wake time is
    not after that tick's time (`RunNeverEarly`).
  - Entries leave in list order (`RunRemovesPrefix`), at most one per tick
    (`RunAtMostOnePerTick`).
- **now + x wraps around as a Java long.** A huge delay therefore gives a
  wake time in the past (`HugeDelayWakesAtOnce`).

## Model

| member | source | states |
|---|---|---|
| Lists.MaxOf | src/nachos/threads/PriorityScheduler.java:248-250 | the result is one of the slots and no slot exceeds it |
| Lists.MaxOfAppendMax | src/nachos/threads/PriorityScheduler.java:349 | appending the current maximum as a new slot leaves the maximum unchanged |
| Lists.RemoveAt | src/nachos/threads/PriorityScheduler.java:252-254 | ArrayList.remove(int): one element fewer, earlier ones kept, later ones shifted left by one, the multiset loses exactly that element |
| Lists.RemoveFirst | src/nachos/threads/PriorityScheduler.java:345-346 | Collection.remove(Object): the multiset loses one copy of x, the length drops by one exactly when x was present, no new elements |
| Lists.AddIfAbsent | src/nachos/threads/PriorityScheduler.java:320 | LinkedHashSet.add: keeps every element in its insertion order at the front, adds x at the end when absent, keeps the list free of duplicates |
| Lists.RemoveFirstFromSet | src/nachos/threads/PriorityScheduler.java:346 | removing a queue from a duplicate-free waited-on list removes it entirely, keeps every other queue and adds none |
| PriorityModel.NewThreadState | src/nachos/threads/PriorityScheduler.java:223-228 | a new record has base priority 1 and the single slot [1] (so effective priority 1), waits on nothing, is well formed, and carries the creation time as stamp |
| PriorityModel.Known | src/nachos/threads/PriorityScheduler.java:125-130 | getThreadState: t gets a record, created fresh at `now` only if it had none; every other record and every queue is unchanged |
| PriorityModel.KnownConsistent | src/nachos/threads/PriorityScheduler.java:125-130 | lazy creation of a record keeps the invariant |
| PriorityModel.EffectivePriority | src/nachos/threads/PriorityScheduler.java:248-250 | getEffectivePriority: the result is one of the slots and no slot exceeds it |
| PriorityModel.EffectiveAtLeastBase | src/nachos/threads/PriorityScheduler.java:248-250 | in a well-formed record the effective priority is in [0,7] and at least the base priority |
| PriorityModel.Signum | src/nachos/threads/PriorityScheduler.java:204 | Long.signum: negative exactly for a negative argument, positive exactly for a positive one |
| PriorityModel.Before | src/nachos/threads/PriorityScheduler.java:198-205 | a higher effective priority always goes first and a lower one never does; the stamp only breaks ties |
| PriorityModel.Compare | src/nachos/threads/PriorityScheduler.java:198-205 | negative exactly when the first thread has higher effective priority or equal priority and an earlier stamp, positive in the mirror case, zero exactly when both keys are equal |
| PriorityModel.NotBeforeTransitive | src/nachos/threads/PriorityScheduler.java:198-205 | the comparator's order is a total preorder (transitive "not after") |
| PriorityModel.BestWaiter | src/nachos/threads/PriorityScheduler.java:19-23 | picks a waiter that no waiter goes before; every waiter listed before it goes strictly after it |
| PriorityModel.PickNextThread | src/nachos/threads/PriorityScheduler.java:171-173 | null exactly when nobody waits; otherwise a waiter that no other waiter goes before |
| PriorityModel.RaiseSlot | src/nachos/threads/PriorityScheduler.java:256-259 | setEffectivePriority: only slot i can change, it ends at least as large as before and at least v, and it is either the old value or v |
| PriorityModel.RaiseSlotEffective | src/nachos/threads/PriorityScheduler.java:256-259 | after raising one slot to v, the effective priority is the larger of the old effective priority and v |
| PriorityModel.Rebase | src/nachos/threads/PriorityScheduler.java:270-275 | the base and slot 0 become p; all other slots, the stamp and the waited-on queues are kept |
| PriorityModel.RebaseWellFormed | src/nachos/threads/PriorityScheduler.java:266-275 | rebasing to a valid priority keeps the record well formed, and p bounds the new effective priority from below |
| PriorityModel.RemoveOwnedSlotWellFormed | src/nachos/threads/PriorityScheduler.java:252-254 | removing an owned slot (index at least 1) keeps the record well formed and never raises its effective priority |
| PriorityModel.AcquiredRecordWellFormed | src/nachos/threads/PriorityScheduler.java:346-350 | leaving the waited-on set and appending the current maximum as a slot keep the record well formed |
| PriorityModel.DonateTo | src/nachos/threads/PriorityScheduler.java:322-324 | donating through one queue changes no thread's base, stamp, waited-on queues or number of slots |
| PriorityModel.Donate | src/nachos/threads/PriorityScheduler.java:277-283 | the donation loop changes no thread's base, stamp, waited-on queues or number of slots |
| PriorityModel.DonateNeverLowers | src/nachos/threads/PriorityScheduler.java:277-283 | the donation loop never lowers any slot of any thread |
| PriorityModel.DonateOneHop | src/nachos/threads/PriorityScheduler.java:277-283 | a thread that owns none of the transferring queues donated through is left exactly as it was |
| PriorityModel.DonateExact | src/nachos/threads/PriorityScheduler.java:277-283 | after the loop, slot j of thread u is the larger of its old value and the donated value when u owns a transferring queue of the list and keeps slot j for it, and its old value otherwise |
| PriorityModel.DonateWellFormed | src/nachos/threads/PriorityScheduler.java:277-283 | donating a valid priority into owned slots keeps every record well formed |
| PriorityModel.NewQueue | src/nachos/threads/PriorityScheduler.java:50-52 | newThreadQueue: exactly one queue is added, with the given transfer flag, no waiters, no owner and index -1; threads and existing queues are unchanged |
| PriorityModel.NewQueueConsistent | src/nachos/threads/PriorityScheduler.java:136-138 | adding a fresh queue keeps the invariant |
| PriorityModel.SetPriorityStep | src/nachos/threads/PriorityScheduler.java:266-285 | setPriority leaves the queues alone and changes no thread's base (other than t's), stamp, waited-on queues or number of slots |
| PriorityModel.DropOwnerSlot | src/nachos/threads/PriorityScheduler.java:153-157 | the owner's record loses exactly its slot for q, q's index becomes -1 and nothing else of q changes; every other thread and queue is unchanged |
| PriorityModel.DropOwnerSlotConsistent | src/nachos/threads/PriorityScheduler.java:153-157 | removing the owner's slot for q and setting q's index to -1 keeps the invariant |
| PriorityModel.ClearOwnerConsistent | src/nachos/threads/PriorityScheduler.java:315-316 | clearing q's owner and index keeps the invariant |
| PriorityModel.GiveUpOwnQueue | src/nachos/threads/PriorityScheduler.java:310-318 | a thread that waits on its own queue first stops owning it; the invariant holds, q's waiters and flag and every other thread and queue are unchanged |
| PriorityModel.Enqueue | src/nachos/threads/PriorityScheduler.java:319-320 | joining the waiters changes no slot, owner, index or transfer flag |
| PriorityModel.EnqueueConsistent | src/nachos/threads/PriorityScheduler.java:319-320 | enqueueing a thread on a queue it does not own keeps the invariant |
| PriorityModel.WaitForAccessStep | src/nachos/threads/PriorityScheduler.java:309-325 | waitForAccess keeps the sets of threads and queues and appends t to q's waiters |
| PriorityModel.AcquireStep | src/nachos/threads/PriorityScheduler.java:337-352 | acquire makes t the owner of q, and q's waiters lose exactly one copy of t (as a multiset) |
| PriorityModel.NextThreadStep | src/nachos/threads/PriorityScheduler.java:150-161 | nextThread returns null exactly when nobody waits; otherwise it returns one of the waiters, which then owns q |
| PriorityModel.Poll | src/nachos/threads/PriorityScheduler.java:159-161 | the polled thread is one of the waiters and owns q afterwards |
| PriorityModel.ReleaseOwnerSlot | src/nachos/threads/PriorityScheduler.java:153-158 | nextThread's release keeps the invariant, q's waiters, owner and transfer flag |
| PriorityProperties.DonateToConsistent | src/nachos/threads/PriorityScheduler.java:322-324 | donating a valid priority through a queue keeps the invariant |
| PriorityProperties.WaitForAccessConsistent | src/nachos/threads/PriorityScheduler.java:309-325 | waitForAccess keeps the invariant |
| PriorityProperties.WaitForAccessEnqueues | src/nachos/threads/PriorityScheduler.java:309-325 | t is appended to q's waiters; t's waited-on queues become LinkedHashSet.add of q; q loses its owner exactly when t owned it and otherwise keeps owner and index; q's flag, t's base and stamp are kept; no other queue changes |
| PriorityProperties.WaitForAccessReleasesOwnSlot | src/nachos/threads/PriorityScheduler.java:310-318 | when t owned q, q ends with no owner and index -1, t loses its slot for q if q transfers, and no other thread changes |
| PriorityProperties.WaitForAccessDonates | src/nachos/threads/PriorityScheduler.java:322-324 | when another thread owns a transferring q, its slot for q becomes the larger of its old value and t's effective priority, nothing else of its record changes, its effective priority becomes the larger of the two, t's slots are kept, and no third thread changes |
| PriorityProperties.WaitForAccessNoTransferNoDonation | src/nachos/threads/PriorityScheduler.java:322-324 | on a non-transferring queue no other thread changes at all |
| PriorityProperties.AcquireConsistent | src/nachos/threads/PriorityScheduler.java:337-352 | acquire keeps the invariant |
| PriorityProperties.AcquireKeepsWellFormed | src/nachos/threads/PriorityScheduler.java:346-351 | acquire keeps every record well formed |
| PriorityProperties.AcquireKeepsQueuesOk | src/nachos/threads/PriorityScheduler.java:347-350 | acquire keeps every queue's owner, waiters and index consistent |
| PriorityProperties.AcquireKeepsWaitsOk | src/nachos/threads/PriorityScheduler.java:346-347 | after acquire no thread owns a queue it waits on |
| PriorityProperties.AcquireGrants | src/nachos/threads/PriorityScheduler.java:344-347 | t owns q, one copy of t leaves the waiters, q keeps its flag, t's waited-on queues become Collection.remove of q (so q is gone), t's base and stamp are kept, and every other thread and queue (the previous owner included) is untouched |
| PriorityProperties.AcquireSlot | src/nachos/threads/PriorityScheduler.java:348-351 | t's effective priority is unchanged; a transferring q gives t one new slot after its old ones, which are kept, holding that priority, and q's index points at it; otherwise t's slots are kept |
| PriorityProperties.AcquireTakesQueue | src/nachos/threads/PriorityScheduler.java:344-347 | q's record after acquire is the old one with one copy of t removed from the waiters and t as owner; only the index may differ |
| PriorityProperties.AcquireLeavesWait | src/nachos/threads/PriorityScheduler.java:346 | t's waited-on queues become Collection.remove of q, so q is gone from them; t's base and stamp are kept |
| PriorityProperties.AcquireFrame | src/nachos/threads/PriorityScheduler.java:337-352 | acquire changes no thread but t and no queue but q |
| PriorityProperties.AcquireLeavesNoWaiterCopy | src/nachos/threads/PriorityScheduler.java:345 | a thread listed at most once among the waiters is no longer a waiter after acquiring |
| PriorityProperties.ReleaseOwnerSlotEffect | src/nachos/threads/PriorityScheduler.java:153-158 | for an owned transferring queue the owner's record loses exactly its slot for q and nothing else, q's index becomes -1 and nothing else of q changes, and every other thread and queue is unchanged; otherwise nothing changes |
| PriorityProperties.PollConsistent | src/nachos/threads/PriorityScheduler.java:160 | polling one waiter keeps the invariant |
| PriorityProperties.PollKeepsInvariant | src/nachos/threads/PriorityScheduler.java:159-161 | polling and granting keep the invariant and the set of queues |
| PriorityProperties.NextThreadConsistent | src/nachos/threads/PriorityScheduler.java:150-161 | nextThread keeps the invariant and the set of queues |
| PriorityProperties.NextThreadNullIffEmpty | src/nachos/threads/PriorityScheduler.java:153-159 | nextThread returns null exactly when nobody waits; then only the release happened and q keeps its owner |
| PriorityProperties.NextThreadChoosesBest | src/nachos/threads/PriorityScheduler.java:159-161 | otherwise it returns a waiter that no waiter goes before, judged after the outgoing owner's slot is gone; that waiter owns q; two copies of it leave the waiters |
| PriorityProperties.NextThreadFrame | src/nachos/threads/PriorityScheduler.java:150-161 | nextThread changes no queue but q, and no thread but the outgoing owner and the thread it returns |
| PriorityProperties.PollFrame | src/nachos/threads/PriorityScheduler.java:159-161 | the poll and grant change no queue but q and no thread but the one returned |
| PriorityProperties.NotOwnerOfWaitedQueues | src/nachos/threads/PriorityScheduler.java:277-283 | in a consistent state a thread owns none of the transferring queues it waits on, so its donation never feeds back into itself |
| PriorityProperties.SetPriorityConsistent | src/nachos/threads/PriorityScheduler.java:266-285 | setPriority to a valid priority keeps the invariant |
| PriorityProperties.SetPriorityRebases | src/nachos/threads/PriorityScheduler.java:270-275 | t's record becomes the rebased record: base and slot 0 are p, other slots kept |
| PriorityProperties.SetPriorityExact | src/nachos/threads/PriorityScheduler.java:277-283 | for every other thread u, slot j ends as the larger of its old value and t's new effective priority when u owns a transferring queue t waits on and keeps slot j for it, and as it was otherwise |
| PriorityProperties.SetPriorityOneHop | src/nachos/threads/PriorityScheduler.java:256-259 | any other thread that owns none of those queues is left exactly as it was, even at the end of a longer chain |
| PriorityProperties.SetPriorityNeverWithdraws | src/nachos/threads/PriorityScheduler.java:256-259 | no slot of any other thread is ever lowered, so lowering a donor never withdraws its donation |
| PriorityScheduler.Scheduler.constructor | src/nachos/threads/PriorityScheduler.java:39-40 | no records, no queues, invariant holds |
| PriorityScheduler.Scheduler.NewThreadQueue | src/nachos/threads/PriorityScheduler.java:50-52 | returns an unused queue identity and ends in NewQueue of the old state, invariant kept |
| PriorityScheduler.Scheduler.GetThreadState | src/nachos/threads/PriorityScheduler.java:125-130 | ends in Known of the old state, invariant kept |
| PriorityScheduler.Scheduler.GetPriority | src/nachos/threads/PriorityScheduler.java:54-58 | returns t's base priority, a valid priority |
| PriorityScheduler.Scheduler.GetEffectivePriority | src/nachos/threads/PriorityScheduler.java:60-64 | returns the largest slot, in [0,7] and at least the base priority |
| PriorityScheduler.Scheduler.RemoveEffectivePriority | src/nachos/threads/PriorityScheduler.java:252-254 | u's slots lose index i as ArrayList.remove does; nothing else changes |
| PriorityScheduler.Scheduler.SetEffectivePriority | src/nachos/threads/PriorityScheduler.java:256-259 | u's slot i is raised as RaiseSlot says; nothing else changes |
| PriorityScheduler.Scheduler.StateSetPriority | src/nachos/threads/PriorityScheduler.java:266-285 | ends in SetPriorityStep of the old state, with t's record rebased to p; invariant kept |
| PriorityScheduler.Scheduler.DonateThrough | src/nachos/threads/PriorityScheduler.java:277-283 | reading t's effective priority on every pass, the loop ends in Donate of the records it started from with t's starting effective priority; t's record is unchanged |
| PriorityScheduler.Scheduler.SetPriority | src/nachos/threads/PriorityScheduler.java:66-74 | requires a priority in [0,7]; ends in SetPriorityStep after lazy creation, invariant kept |
| PriorityScheduler.Scheduler.IncreasePriority | src/nachos/threads/PriorityScheduler.java:76-89 | returns false and changes nothing but lazy creation at base 7; otherwise raises the base by exactly one through setPriority and returns true; the donation targets must exist only when setPriority is actually called |
| PriorityScheduler.Scheduler.DecreasePriority | src/nachos/threads/PriorityScheduler.java:91-104 | the mirror image at base 0 |
| PriorityScheduler.Scheduler.LeaveOwnQueue | src/nachos/threads/PriorityScheduler.java:310-318 | ends in GiveUpOwnQueue of the old state, invariant kept |
| PriorityScheduler.Scheduler.StateWaitForAccess | src/nachos/threads/PriorityScheduler.java:309-325 | ends in WaitForAccessStep of the old state, invariant kept |
| PriorityScheduler.Scheduler.WaitForAccess | src/nachos/threads/PriorityScheduler.java:140-143 | lazy creation, then WaitForAccessStep, invariant kept |
| PriorityScheduler.Scheduler.StateAcquire | src/nachos/threads/PriorityScheduler.java:337-352 | ends in AcquireStep of the old state |
| PriorityScheduler.Scheduler.Grant | src/nachos/threads/PriorityScheduler.java:344-351 | ends in AcquireStep of the old state, invariant kept |
| PriorityScheduler.Scheduler.Acquire | src/nachos/threads/PriorityScheduler.java:145-148 | lazy creation, then AcquireStep, invariant kept |
| PriorityScheduler.Scheduler.ReleaseOwner | src/nachos/threads/PriorityScheduler.java:153-158 | ends in ReleaseOwnerSlot of the old state, invariant kept |
| PriorityScheduler.Scheduler.PollWaiter | src/nachos/threads/PriorityScheduler.java:159-161 | returns the polled waiter and ends in the state Poll gives, invariant kept |
| PriorityScheduler.Scheduler.NextThread | src/nachos/threads/PriorityScheduler.java:150-162 | returns what NextThreadStep chooses and ends in its state, invariant kept |
| SelfTestScenario.StartConsistent | src/nachos/threads/SelfTests.java:14-16 | three fresh transferring queues form a consistent state |
| SelfTestScenario.Line24 | src/nachos/threads/SelfTests.java:24 | kt_1 gets a record and waits on tq1 |
| SelfTestScenario.Line25 | src/nachos/threads/SelfTests.java:25 | kt_2 gets a record and waits on tq2 |
| SelfTestScenario.Line26 | src/nachos/threads/SelfTests.java:26 | kt_3 gets a record and waits on tq3 |
| SelfTestScenario.Through24Consistent | src/nachos/threads/SelfTests.java:24 | the invariant holds after line 24 |
| SelfTestScenario.Through25Consistent | src/nachos/threads/SelfTests.java:24-25 | the invariant holds after line 25 |
| SelfTestScenario.Through26Consistent | src/nachos/threads/SelfTests.java:24-26 | the invariant holds after line 26 |
| SelfTestScenario.Line28 | src/nachos/threads/SelfTests.java:28 | kt_2 owns tq1 with a new slot of 1, and kt_1 stays queued |
| SelfTestScenario.Line29 | src/nachos/threads/SelfTests.java:29 | kt_3 owns tq2 with a new slot of 1 |
| SelfTestScenario.Line30 | src/nachos/threads/SelfTests.java:30 | kt_4 gets a record and owns tq3 with a new slot of 1 |
| SelfTestScenario.AcquireByNewcomer | src/nachos/threads/PriorityScheduler.java:337-352 | a thread without a record that acquires an unowned transferring queue gets a fresh record with slots [1, 1], and the queue's index points at slot 1 |
| SelfTestScenario.Through30Consistent | src/nachos/threads/SelfTests.java:28-30 | the invariant holds after line 30 |
| SelfTestScenario.Line32 | src/nachos/threads/SelfTests.java:32 | kt_1 goes to 6 and raises kt_2's slot for tq1 to 6; kt_3 and kt_4 are untouched |
| SelfTestScenario.Through32Consistent | src/nachos/threads/SelfTests.java:32 | the invariant holds after line 32 |
| SelfTestScenario.Line39 | src/nachos/threads/SelfTests.java:37-39 | kt_5 gets a record with priority 7 |
| SelfTestScenario.Through39Consistent | src/nachos/threads/SelfTests.java:39 | the invariant holds after line 39 |
| SelfTestScenario.Line41Donation | src/nachos/threads/SelfTests.java:41 | kt_5 joins tq1 and raises kt_2's slot for tq1 from 6 to 7 |
| SelfTestScenario.Line41 | src/nachos/threads/SelfTests.java:41 | waitForAccess of kt_5 on tq1 reaches the state of line 41 |
| SelfTestScenario.Through41Consistent | src/nachos/threads/SelfTests.java:41 | the invariant holds after line 41 |
| SelfTestScenario.Line45Release | src/nachos/threads/SelfTests.java:45 | kt_2 gives back its slot for tq1 |
| SelfTestScenario.Line45Choice | src/nachos/threads/SelfTests.java:45 | kt_5 (effective 7) goes before kt_1 (effective 6) and acquires tq1 with a slot of 7 |
| SelfTestScenario.Line45Poll | src/nachos/threads/SelfTests.java:45 | the poll hands tq1 to kt_5 |
| SelfTestScenario.Line45 | src/nachos/threads/SelfTests.java:45 | nextThread on tq1 returns kt_5 and reaches the final state |
| SelfTestScenario.EffectivePriorities | src/nachos/threads/SelfTests.java:32-47 | kt_2 reads 6 after line 32 and kt_4 reads 1 at line 35, where the test expects 6 and stops; in the replay past line 35, kt_2 reads 7 after line 41, kt_4 reads 1 at line 43 (7 expected), and after line 45 kt_2 and kt_4 both read 1 |
| SelfTestScenario.TestPriorityScheduler | src/nachos/threads/SelfTests.java:12-50 | the scenario stays consistent through line 41, and the nextThread of line 45 hands tq1 to kt_5 |
| SelfTestScenario.StaleOwnerConsistent | src/nachos/threads/PriorityScheduler.java:337-352 | a state where kt_1 owns tq2 and waits on tq1, owned by kt_2, is consistent and setPriority is defined on kt_1 |
| SelfTestScenario.SamePriorityStillDonates | src/nachos/threads/PriorityScheduler.java:266-285 | setPriority(kt_1, 1) with kt_1 already at 1 still lifts kt_2 from 1 to 5 |
| AlarmClock.WrapLong | src/nachos/threads/Alarm.java:90 | the result is a long congruent to x modulo 2^64, and equal to x when x fits |
| AlarmClock.AddLong | src/nachos/threads/Alarm.java:90 | long addition: exact when the sum fits, otherwise off by exactly 2^64 |
| AlarmClock.TimerTick | src/nachos/threads/Alarm.java:39-48 | the rest is a suffix of the list, one shorter exactly when the list is non-empty and the head's wake time has come; the woken thread is that head's thread |
| AlarmClock.AppendBehind | src/nachos/threads/Alarm.java:94 | an entry appended at the end does not change what a tick does to the entries ahead of it |
| AlarmClock.RunRemovesPrefix | src/nachos/threads/Alarm.java:39-48 | over any run of ticks, removed entries followed by the remaining list give back the original list (FIFO, nothing lost or reordered) |
| AlarmClock.RunAtMostOnePerTick | src/nachos/threads/Alarm.java:39-48 | a run of n ticks removes at most n entries |
| AlarmClock.RunSnoc | src/nachos/threads/Alarm.java:39-48 | one more tick after a run leaves the list that one tick on the run's remaining list leaves |
| AlarmClock.RunNeverEarly | src/nachos/threads/Alarm.java:41 | the tick at times[j] appends at most one entry to those removed before it, and an entry it removes has a wake time not after times[j] |
| AlarmClock.HeadBlocks | src/nachos/threads/Alarm.java:39-41 | while the head is not due, no tick removes anything |
| AlarmClock.DueThreadStaysAsleep | src/nachos/threads/Alarm.java:76-83 | a due thread behind a later one is not woken |
| AlarmClock.HugeDelayWakesAtOnce | src/nachos/threads/Alarm.java:90 | a delay that overflows now + x gives a wake time in the past, and the next tick wakes the thread |
| AlarmClock.Alarm.constructor | src/nachos/threads/Alarm.java:120 | the list starts empty |
| AlarmClock.Alarm.WaitUntil | src/nachos/threads/Alarm.java:89-97 | appends exactly one entry (current thread, now + x as a long) after all earlier ones |
| AlarmClock.Alarm.TimerInterrupt | src/nachos/threads/Alarm.java:39-48 | the list and the woken thread are what TimerTick gives |

## Left out

- Interrupt plumbing is left out: `Machine.interrupt().disable/restore` and
  the `Lib.assertTrue(...disabled())` checks. Every call is taken to run
  with interrupts disabled. The restore missing on the early
  `return false` of increasePriority and decreasePriority does not affect
  the state modelled.
- Kernel runtime calls are left out, because they are outside the
  component:
  - `KThread.ready`, `sleep`, `yield` and `currentThread`. The woken thread
    is returned and the calling thread is a parameter.
  - `Machine.timer().getTime()`. The clock reading is the parameter `now`.
  - The timer handler registration in the Alarm constructor.
- `uniqueID` (from `Random`), `equals`, `hashCode`, `toString` and `print`
  are left out. Thread identity is a number.
- `getLockingThread` is left out: it only reads the `owner` field.
- `getInitTime` and `setInitTime` are left out: the stamp is the record
  field `initTime`, and `setInitTime` is never called.
- PriorityModel.BestWaiter: does not reproduce the order of Java's binary
  heap, whose keys change after insertion. The waiter taken is one that
  the comparator, under the keys at call time, puts no other waiter
  before, the documented rule. Among waiters with equal keys it is the one
  listed first, where the heap's choice is arbitrary.
- PriorityModel.OwnerSlotOk: the paths that throw in Java are preconditions
  instead of modelled exceptions:
  - a stale slot index after `ArrayList.remove(int)` shifts later slots;
  - an index of -1 used by donation after `nextThread` on an empty queue.
  The operations that can hit these (setPriority, waitForAccess,
  nextThread) require that the owner's slot for the queue exists.
- PriorityScheduler.Scheduler.SetPriority: the `Lib.assertTrue` bounds
  check on the priority is a precondition, not a modelled failure.
- The waiters of a queue are a sequence, because Java's `PriorityQueue`
  may hold a thread twice. The waited-on queues of a thread are a
  duplicate-free sequence, standing for the `LinkedHashSet`.
- Java `int` overflow in priorities cannot occur: every priority stays in
  [0,7].
- PriorityModel.Compare: `init_time` is a Java `long`, while the stamp
  `now` is an unbounded integer. The subtraction at
  PriorityScheduler.java:204 cannot overflow, because clock readings are
  never negative; the model does not state that bound.
- The commented-out sweep in Alarm.java:51-68 is not code and is not
  modelled.
- AlarmClock.Alarm.WaitUntil: the entry always carries the calling thread.
  A null thread can appear only through `Tupla`'s type, and `TimerTick`
  handles it by returning no thread.
- `Communicator.java` and `Boat.java` are not part of this model. They are
  concurrency built on locks and condition variables, with external
  grader callbacks.
- `SelfTests.testBoat` is not modelled. The printing in `SelfTests` is not
  modelled either.
