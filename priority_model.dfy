/**
 * The priority-donating thread queue of the Nachos priority scheduler
 * (nachos.threads.PriorityScheduler), stated on values.
 *
 * A thread's record keeps its base priority and a list of "slots": slot 0
 * mirrors the base priority, and every transferring queue the thread acquires
 * appends one more slot, whose index the queue remembers. Its effective
 * priority is the largest slot. A waiter donates by raising the slot that the
 * owner of the queue keeps for that queue; nothing cascades further.
 *
 * Each state-changing operation of the scheduler is a function from State to
 * State here; the class in module PriorityScheduler performs the same updates
 * step by step and is proved to end in the state these functions give.
 */
module PriorityModel {
  import opened Common
  import opened Lists

  /** A queue created by newThreadQueue, known by its identity. */
  type QueueId = nat

  const PriorityDefault: int := 1
  const PriorityMinimum: int := 0
  const PriorityMaximum: int := 7

  predicate InRange(p: int) {
    PriorityMinimum <= p <= PriorityMaximum
  }

  /**
   * ThreadState: the base priority, the effective-priority slots, the time
   * the record was created (init_time), and the queues the thread waits on,
   * in insertion order (a LinkedHashSet).
   */
  datatype ThreadState = ThreadState(
    priority: int,
    slots: seq<int>,
    initTime: int,
    waitingQueues: seq<QueueId>)

  /**
   * PriorityQueue: the transfer flag, the waiters (a heap that may hold a
   * thread more than once; its order is not modelled), the owner
   * (lockingThread) and the owner's slot for this queue (index_lockingThread,
   * -1 for none).
   */
  datatype QueueState = QueueState(
    transferPriority: bool,
    waiters: seq<ThreadId>,
    owner: Option<ThreadId>,
    ownerIndex: int)

  /** Everything the scheduler knows: one record per thread and per queue. */
  datatype State = State(threads: map<ThreadId, ThreadState>, queues: map<QueueId, QueueState>)

  /** The result of nextThread: the new state and the thread it returned (None for null). */
  datatype Handoff = Handoff(state: State, chosen: Option<ThreadId>)

  // ---------------------------------------------------------------------
  // Thread records
  // ---------------------------------------------------------------------

  /**
   * new ThreadState(thread): a well-formed record stamped with the current
   * time, waiting on nothing, whose base and effective priority are the
   * default.
   */
  function NewThreadState(now: int): (r: ThreadState)
    ensures WellFormed(r) && r.priority == PriorityDefault && EffectivePriority(r) == PriorityDefault
    ensures r.slots == [PriorityDefault]
    ensures r.initTime == now && r.waitingQueues == []
  {
    ThreadState(PriorityDefault, [PriorityDefault], now, [])
  }

  /** getThreadState: t's record, created at time now if t was never seen. */
  function Known(s: State, t: ThreadId, now: int): (r: State)
    ensures t in r.threads && r.threads.Keys == s.threads.Keys + {t}
    ensures forall u :: u in s.threads ==> r.threads[u] == s.threads[u]
    ensures t !in s.threads ==> r.threads[t] == NewThreadState(now)
    ensures r.queues == s.queues
  {
    if t in s.threads then s else s.(threads := s.threads[t := NewThreadState(now)])
  }

  /** getEffectivePriority: the largest slot, which is one of the slots. */
  function EffectivePriority(ts: ThreadState): (r: int)
    requires |ts.slots| > 0
    ensures r in ts.slots
    ensures forall i :: 0 <= i < |ts.slots| ==> ts.slots[i] <= r
  {
    MaxOf(ts.slots)
  }

  /** The shape every record keeps: slot 0 is the base and all slots are valid priorities. */
  ghost predicate WellFormed(ts: ThreadState) {
    && |ts.slots| >= 1
    && ts.slots[0] == ts.priority
    && (forall i :: 0 <= i < |ts.slots| ==> InRange(ts.slots[i]))
    && NoDup(ts.waitingQueues)
  }

  /** The effective priority is a valid priority and never below the base priority. */
  lemma EffectiveAtLeastBase(ts: ThreadState)
    requires WellFormed(ts)
    ensures ts.priority <= EffectivePriority(ts)
    ensures InRange(EffectivePriority(ts))
  {
  }

  // ---------------------------------------------------------------------
  // The waiter order
  // ---------------------------------------------------------------------

  function Signum(x: int): (r: int)
    ensures r < 0 <==> x < 0
    ensures r > 0 <==> x > 0
  {
    if x < 0 then -1 else if x > 0 then 1 else 0
  }

  /**
   * The documented rule: a goes before b when its effective priority is higher,
   * or equal and it was stamped earlier; the stamp only breaks ties.
   */
  predicate Before(a: ThreadState, b: ThreadState): (r: bool)
    requires |a.slots| > 0 && |b.slots| > 0
    ensures EffectivePriority(a) > EffectivePriority(b) ==> r
    ensures r ==> EffectivePriority(a) >= EffectivePriority(b)
  {
    var ea, eb := EffectivePriority(a), EffectivePriority(b);
    ea > eb || (ea == eb && a.initTime < b.initTime)
  }

  /** MyComparator.compare: negative when a goes first, positive when b goes first. */
  function Compare(a: ThreadState, b: ThreadState): (c: int)
    requires |a.slots| > 0 && |b.slots| > 0
    ensures c < 0 <==> Before(a, b)
    ensures c > 0 <==> Before(b, a)
    ensures c == 0 <==> EffectivePriority(a) == EffectivePriority(b) && a.initTime == b.initTime
  {
    var diff := EffectivePriority(a) - EffectivePriority(b);
    if diff != 0 then -1 * diff else Signum(a.initTime - b.initTime)
  }

  /** "Not after" is transitive, so the comparator is a total preorder. */
  lemma NotBeforeTransitive(a: ThreadState, b: ThreadState, c: ThreadState)
    requires |a.slots| > 0 && |b.slots| > 0 && |c.slots| > 0
    requires !Before(a, b) && !Before(b, c)
    ensures !Before(a, c)
  {
  }

  /** Every listed waiter has a record with at least one slot. */
  ghost predicate Registered(th: map<ThreadId, ThreadState>, ws: seq<ThreadId>) {
    forall i :: 0 <= i < |ws| ==> ws[i] in th && |th[ws[i]].slots| > 0
  }

  /**
   * The position of the waiter that the comparator puts first under the
   * current keys; among waiters the comparator cannot tell apart, the one
   * listed first.
   */
  function BestWaiter(ws: seq<ThreadId>, th: map<ThreadId, ThreadState>): (k: nat)
    requires |ws| > 0 && Registered(th, ws)
    ensures k < |ws|
    ensures forall j :: 0 <= j < |ws| ==> !Before(th[ws[j]], th[ws[k]])
    ensures forall j :: 0 <= j < k ==> Before(th[ws[k]], th[ws[j]])
  {
    if |ws| == 1 then 0
    else
      var tail := ws[1..];
      assert forall j :: 1 <= j < |ws| ==> ws[j] == tail[j - 1];
      var k := 1 + BestWaiter(tail, th);
      if Compare(th[ws[k]], th[ws[0]]) < 0 then k
      else
        assert forall j :: 0 <= j < |ws| ==> !Before(th[ws[j]], th[ws[0]]) by {
          forall j | 0 <= j < |ws|
            ensures !Before(th[ws[j]], th[ws[0]])
          {
            if j > 0 { NotBeforeTransitive(th[ws[j]], th[ws[k]], th[ws[0]]); }
          }
        }
        0
  }

  /**
   * pickNextThread: null exactly when nobody waits, otherwise a waiter no
   * other waiter goes before.
   */
  function PickNextThread(Q: QueueState, th: map<ThreadId, ThreadState>): (r: Option<ThreadId>)
    requires Registered(th, Q.waiters)
    ensures r.None? <==> |Q.waiters| == 0
    ensures r.Some? ==> r.value in Q.waiters
    ensures r.Some? ==> forall j :: 0 <= j < |Q.waiters| ==> !Before(th[Q.waiters[j]], th[r.value])
  {
    if |Q.waiters| == 0 then None else Some(Q.waiters[BestWaiter(Q.waiters, th)])
  }

  // ---------------------------------------------------------------------
  // Slots
  // ---------------------------------------------------------------------

  /** setEffectivePriority(v, i): slot i becomes v if v is larger; it is never lowered. */
  function RaiseSlot(slots: seq<int>, i: nat, v: int): (r: seq<int>)
    requires i < |slots|
    ensures |r| == |slots|
    ensures forall j :: 0 <= j < |slots| && j != i ==> r[j] == slots[j]
    ensures slots[i] <= r[i] && v <= r[i]
    ensures r[i] == slots[i] || r[i] == v
  {
    if slots[i] < v then slots[i := v] else slots
  }

  /** Raising one slot to v makes the effective priority the larger of the old one and v. */
  lemma RaiseSlotEffective(slots: seq<int>, i: nat, v: int)
    requires i < |slots|
    ensures MaxOf(RaiseSlot(slots, i, v)) == if MaxOf(slots) < v then v else MaxOf(slots)
  {
    var r := RaiseSlot(slots, i, v);
    var m := if MaxOf(slots) < v then v else MaxOf(slots);
    var k :| 0 <= k < |slots| && slots[k] == MaxOf(slots);
    if MaxOf(slots) < v {
      assert r[i] == v;
    } else if k == i {
      assert r[i] == m;
    } else {
      assert r[k] == m;
    }
    MaxOfUnique(r, m);
  }

  /** setPriority, lines 270-275: the base priority and slot 0 become p. */
  function Rebase(ts: ThreadState, p: int): (r: ThreadState)
    requires |ts.slots| > 0
    ensures |r.slots| == |ts.slots| && r.priority == p && r.slots[0] == p
    ensures r.slots[1..] == ts.slots[1..]
    ensures r.initTime == ts.initTime && r.waitingQueues == ts.waitingQueues
  {
    ts.(priority := p, slots := ts.slots[0 := p])
  }

  /** Rebasing to a valid priority keeps the record well formed; the new base bounds it from below. */
  lemma RebaseWellFormed(ts: ThreadState, p: int)
    requires WellFormed(ts) && InRange(p)
    ensures WellFormed(Rebase(ts, p))
    ensures p <= EffectivePriority(Rebase(ts, p))
  {
  }

  /** Removing an owned slot (index at least 1) keeps slot 0 and the record well formed. */
  lemma RemoveOwnedSlotWellFormed(ts: ThreadState, i: nat)
    requires WellFormed(ts) && 1 <= i < |ts.slots|
    ensures WellFormed(ts.(slots := RemoveAt(ts.slots, i)))
    ensures EffectivePriority(ts.(slots := RemoveAt(ts.slots, i))) <= EffectivePriority(ts)
  {
    var r := RemoveAt(ts.slots, i);
    assert r[0] == ts.slots[0];
    assert forall j :: 0 <= j < |r| ==> r[j] in ts.slots by {
      forall j | 0 <= j < |r| ensures r[j] in ts.slots {
        if j < i { assert r[j] == ts.slots[j]; } else { assert r[j] == ts.slots[j + 1]; }
      }
    }
  }

  /** acquire's changes to the acquiring thread's record keep it well formed. */
  lemma AcquiredRecordWellFormed(ts: ThreadState, q: QueueId)
    requires WellFormed(ts)
    ensures var ts1 := ts.(waitingQueues := RemoveFirst(ts.waitingQueues, q));
      && WellFormed(ts1)
      && WellFormed(ts1.(slots := ts1.slots + [EffectivePriority(ts1)]))
  {
    RemoveFirstFromSet(ts.waitingQueues, q);
    var ts1 := ts.(waitingQueues := RemoveFirst(ts.waitingQueues, q));
    EffectiveAtLeastBase(ts1);
    var slots := ts1.slots + [EffectivePriority(ts1)];
    forall i | 0 <= i < |slots| ensures InRange(slots[i]) {
      if i < |ts1.slots| { assert slots[i] == ts1.slots[i]; }
    }
  }

  // ---------------------------------------------------------------------
  // Consistency of the whole state
  // ---------------------------------------------------------------------

  /**
   * A queue's owner and waiters have records, and its slot index is -1 or,
   * for an owned transferring queue, at least 1 (slot 0 is never an owned slot).
   */
  ghost predicate QueueOk(Q: QueueState, th: map<ThreadId, ThreadState>) {
    && (Q.owner.Some? ==> Q.owner.value in th)
    && (forall i :: 0 <= i < |Q.waiters| ==> Q.waiters[i] in th)
    && (Q.ownerIndex == -1 || (Q.transferPriority && Q.owner.Some? && Q.ownerIndex >= 1))
  }

  /**
   * The invariant the operations keep: every record is well formed, every
   * queue a thread waits on exists and is not owned by that thread, and every
   * queue is consistent.
   */
  ghost predicate Consistent(s: State) {
    AllWellFormed(s.threads) && WaitsOk(s.threads, s.queues) && QueuesOk(s.threads, s.queues)
  }

  ghost predicate AllWellFormed(th: map<ThreadId, ThreadState>) {
    forall u :: u in th ==> WellFormed(th[u])
  }

  /** Every queue a thread waits on exists and is not owned by that thread. */
  ghost predicate WaitsOk(th: map<ThreadId, ThreadState>, qs: map<QueueId, QueueState>) {
    forall u, i :: u in th && 0 <= i < |th[u].waitingQueues| ==>
      th[u].waitingQueues[i] in qs && qs[th[u].waitingQueues[i]].owner != Some(u)
  }

  ghost predicate QueuesOk(th: map<ThreadId, ThreadState>, qs: map<QueueId, QueueState>) {
    forall q :: q in qs ==> QueueOk(qs[q], th)
  }

  lemma ConsistentRegistered(s: State, q: QueueId)
    requires Consistent(s) && q in s.queues
    ensures Registered(s.threads, s.queues[q].waiters)
  {
    assert QueueOk(s.queues[q], s.threads);
  }

  /** Creating a record lazily keeps the invariant. */
  lemma KnownConsistent(s: State, t: ThreadId, now: int)
    requires Consistent(s)
    ensures Consistent(Known(s, t, now))
  {
    var r := Known(s, t, now);
    forall q | q in r.queues ensures QueueOk(r.queues[q], r.threads) {
      assert QueueOk(s.queues[q], s.threads);
    }
  }

  /**
   * The slot that q's owner keeps for q exists. Java throws (a stale or -1
   * index_lockingThread) when this fails, so the operations demand it.
   */
  ghost predicate OwnerSlotOk(th: map<ThreadId, ThreadState>, qs: map<QueueId, QueueState>, q: QueueId) {
    && q in qs
    && (qs[q].transferPriority && qs[q].owner.Some? ==>
          qs[q].owner.value in th && 0 <= qs[q].ownerIndex < |th[qs[q].owner.value].slots|)
  }

  ghost predicate DonationTargetsOk(th: map<ThreadId, ThreadState>, qs: map<QueueId, QueueState>, ws: seq<QueueId>) {
    forall i :: 0 <= i < |ws| ==> OwnerSlotOk(th, qs, ws[i])
  }

  /** Same threads, and each keeps its base, stamp, queues and number of slots. */
  ghost predicate SameShape(a: map<ThreadId, ThreadState>, b: map<ThreadId, ThreadState>) {
    && a.Keys == b.Keys
    && forall u :: u in a ==>
         && b[u].priority == a[u].priority
         && b[u].initTime == a[u].initTime
         && b[u].waitingQueues == a[u].waitingQueues
         && |b[u].slots| == |a[u].slots|
  }

  // ---------------------------------------------------------------------
  // Donation (one hop)
  // ---------------------------------------------------------------------

  /** A waiter with effective priority e donates through q: q's owner's slot for q is raised to e. */
  function DonateTo(th: map<ThreadId, ThreadState>, qs: map<QueueId, QueueState>, q: QueueId, e: int): (r: map<ThreadId, ThreadState>)
    requires OwnerSlotOk(th, qs, q)
    ensures SameShape(th, r)
  {
    var Q := qs[q];
    if Q.transferPriority && Q.owner.Some? then
      var o := Q.owner.value;
      th[o := th[o].(slots := RaiseSlot(th[o].slots, Q.ownerIndex, e))]
    else th
  }

  /** The loop of setPriority, lines 277-283: donate e through each queue of ws in turn. */
  function Donate(th: map<ThreadId, ThreadState>, qs: map<QueueId, QueueState>, ws: seq<QueueId>, e: int): (r: map<ThreadId, ThreadState>)
    requires DonationTargetsOk(th, qs, ws)
    ensures SameShape(th, r)
    decreases |ws|
  {
    if ws == [] then th
    else
      var prev := Donate(th, qs, ws[..|ws| - 1], e);
      DonateTo(prev, qs, ws[|ws| - 1], e)
  }

  /** Owns(qs, ws, u): u owns a transferring queue among ws. */
  ghost predicate OwnsTransferring(qs: map<QueueId, QueueState>, ws: seq<QueueId>, u: ThreadId) {
    exists i :: 0 <= i < |ws| && ws[i] in qs && qs[ws[i]].transferPriority && qs[ws[i]].owner == Some(u)
  }

  /** Donation never lowers any slot of any thread. */
  lemma {:induction false} DonateNeverLowers(th: map<ThreadId, ThreadState>, qs: map<QueueId, QueueState>, ws: seq<QueueId>, e: int)
    requires DonationTargetsOk(th, qs, ws)
    ensures forall u, j :: u in th && 0 <= j < |th[u].slots| ==> th[u].slots[j] <= Donate(th, qs, ws, e)[u].slots[j]
    decreases |ws|
  {
    if ws != [] {
      DonateNeverLowers(th, qs, ws[..|ws| - 1], e);
    }
  }

  /** Donation reaches only the direct owners of the transferring queues waited on: one hop. */
  lemma {:induction false} DonateOneHop(th: map<ThreadId, ThreadState>, qs: map<QueueId, QueueState>, ws: seq<QueueId>, e: int, u: ThreadId)
    requires DonationTargetsOk(th, qs, ws)
    requires u in th && !OwnsTransferring(qs, ws, u)
    ensures Donate(th, qs, ws, e)[u] == th[u]
    decreases |ws|
  {
    if ws != [] {
      var init := ws[..|ws| - 1];
      assert forall i :: 0 <= i < |init| ==> init[i] == ws[i];
      DonateOneHop(th, qs, init, e, u);
      assert !(qs[ws[|ws| - 1]].transferPriority && qs[ws[|ws| - 1]].owner == Some(u));
    }
  }

  /** u owns a transferring queue among ws and keeps slot j for it. */
  ghost predicate DonatesInto(qs: map<QueueId, QueueState>, ws: seq<QueueId>, u: ThreadId, j: int) {
    exists i :: 0 <= i < |ws| && ws[i] in qs && qs[ws[i]].transferPriority && qs[ws[i]].owner == Some(u) && qs[ws[i]].ownerIndex == j
  }

  /**
   * The exact effect of the loop: slot j of u ends as the larger of its old
   * value and e when u keeps slot j for a transferring queue of ws, and as
   * it was otherwise.
   */
  lemma {:induction false} DonateExact(th: map<ThreadId, ThreadState>, qs: map<QueueId, QueueState>, ws: seq<QueueId>, e: int, u: ThreadId, j: int)
    requires DonationTargetsOk(th, qs, ws)
    requires u in th && 0 <= j < |th[u].slots|
    ensures Donate(th, qs, ws, e)[u].slots[j] ==
      if DonatesInto(qs, ws, u, j) && th[u].slots[j] < e then e else th[u].slots[j]
    decreases |ws|
  {
    if ws != [] {
      var init := ws[..|ws| - 1];
      assert forall i :: 0 <= i < |init| ==> init[i] == ws[i];
      DonateExact(th, qs, init, e, u, j);
      var Q := qs[ws[|ws| - 1]];
      if Q.transferPriority && Q.owner == Some(u) && Q.ownerIndex == j {
        assert DonatesInto(qs, ws, u, j) by {
          assert ws[|ws| - 1] in qs;
        }
      } else if DonatesInto(qs, ws, u, j) {
        var i :| 0 <= i < |ws| && ws[i] in qs && qs[ws[i]].transferPriority && qs[ws[i]].owner == Some(u) && qs[ws[i]].ownerIndex == j;
        assert i < |init| && init[i] == ws[i];
      } else {
        assert !DonatesInto(qs, init, u, j);
      }
    }
  }

  /** Donating a valid priority through slots at index 1 or above keeps every record well formed. */
  lemma {:induction false} DonateWellFormed(th: map<ThreadId, ThreadState>, qs: map<QueueId, QueueState>, ws: seq<QueueId>, e: int)
    requires DonationTargetsOk(th, qs, ws) && InRange(e)
    requires forall u :: u in th ==> WellFormed(th[u])
    requires forall i :: 0 <= i < |ws| ==> QueueOk(qs[ws[i]], th)
    ensures forall u :: u in th ==> WellFormed(Donate(th, qs, ws, e)[u])
    decreases |ws|
  {
    if ws != [] {
      var init := ws[..|ws| - 1];
      assert forall i :: 0 <= i < |init| ==> init[i] == ws[i];
      DonateWellFormed(th, qs, init, e);
      var prev := Donate(th, qs, init, e);
      var Q := qs[ws[|ws| - 1]];
      assert QueueOk(Q, th);
      if Q.transferPriority && Q.owner.Some? {
        var o := Q.owner.value;
        assert WellFormed(prev[o]);
        var r := RaiseSlot(prev[o].slots, Q.ownerIndex, e);
        assert r[0] == prev[o].slots[0];
        assert forall j :: 0 <= j < |r| ==> InRange(r[j]);
      }
    }
  }

  // ---------------------------------------------------------------------
  // The operations
  // ---------------------------------------------------------------------

  /** newThreadQueue(transferPriority): a new queue with no owner, no waiters and index -1. */
  function NewQueue(s: State, q: QueueId, transferPriority: bool): (r: State)
    requires q !in s.queues
    ensures r.threads == s.threads && r.queues.Keys == s.queues.Keys + {q}
    ensures r.queues[q] == QueueState(transferPriority, [], None, -1)
    ensures forall q' :: q' in s.queues ==> r.queues[q'] == s.queues[q']
  {
    s.(queues := s.queues[q := QueueState(transferPriority, [], None, -1)])
  }

  lemma NewQueueConsistent(s: State, q: QueueId, transferPriority: bool)
    requires Consistent(s) && q !in s.queues
    ensures Consistent(NewQueue(s, q, transferPriority))
  {
    var r := NewQueue(s, q, transferPriority);
    forall q' | q' in r.queues ensures QueueOk(r.queues[q'], r.threads) {
      if q' != q { assert QueueOk(s.queues[q'], s.threads); }
    }
  }

  /** ThreadState.setPriority(p): rebase, then donate the new effective priority through each waited queue. */
  function SetPriorityStep(s: State, t: ThreadId, p: int): (r: State)
    requires t in s.threads && |s.threads[t].slots| > 0
    requires DonationTargetsOk(s.threads, s.queues, s.threads[t].waitingQueues)
    ensures r.queues == s.queues && SameShape(s.threads[t := Rebase(s.threads[t], p)], r.threads)
  {
    var ts := Rebase(s.threads[t], p);
    var th := s.threads[t := ts];
    assert DonationTargetsOk(th, s.queues, ts.waitingQueues) by {
      forall i | 0 <= i < |ts.waitingQueues| ensures OwnerSlotOk(th, s.queues, ts.waitingQueues[i]) {
        assert OwnerSlotOk(s.threads, s.queues, ts.waitingQueues[i]);
      }
    }
    s.(threads := Donate(th, s.queues, ts.waitingQueues, EffectivePriority(ts)))
  }

  /**
   * removeEffectivePriority on the owner of a transferring queue q: the
   * owner gives back its slot for q, and q's index becomes -1.
   */
  function DropOwnerSlot(s: State, q: QueueId): (r: State)
    requires OwnerSlotOk(s.threads, s.queues, q) && s.queues[q].owner.Some? && s.queues[q].transferPriority
    ensures r.threads.Keys == s.threads.Keys && r.queues.Keys == s.queues.Keys
    ensures var o := s.queues[q].owner.value;
      && r.threads[o] == s.threads[o].(slots := RemoveAt(s.threads[o].slots, s.queues[q].ownerIndex))
      && forall u :: u in s.threads && u != o ==> r.threads[u] == s.threads[u]
    ensures r.queues[q] == s.queues[q].(ownerIndex := -1)
    ensures forall q' :: q' in s.queues && q' != q ==> r.queues[q'] == s.queues[q']
  {
    var Q := s.queues[q];
    var o := Q.owner.value;
    State(s.threads[o := s.threads[o].(slots := RemoveAt(s.threads[o].slots, Q.ownerIndex))],
          s.queues[q := Q.(ownerIndex := -1)])
  }

  lemma DropOwnerSlotConsistent(s: State, q: QueueId)
    requires Consistent(s) && OwnerSlotOk(s.threads, s.queues, q)
    requires s.queues[q].owner.Some? && s.queues[q].transferPriority
    ensures Consistent(DropOwnerSlot(s, q))
  {
    var r := DropOwnerSlot(s, q);
    var Q := s.queues[q];
    var o := Q.owner.value;
    assert QueueOk(Q, s.threads) && WellFormed(s.threads[o]);
    RemoveOwnedSlotWellFormed(s.threads[o], Q.ownerIndex);
    assert AllWellFormed(r.threads) by {
      forall u | u in r.threads ensures WellFormed(r.threads[u]) {
        if u != o { assert r.threads[u] == s.threads[u]; }
      }
    }
    assert WaitsOk(r.threads, r.queues) by {
      forall u, i | u in r.threads && 0 <= i < |r.threads[u].waitingQueues|
        ensures r.threads[u].waitingQueues[i] in r.queues
        ensures r.queues[r.threads[u].waitingQueues[i]].owner != Some(u)
      {
        assert r.threads[u].waitingQueues == s.threads[u].waitingQueues;
      }
    }
    assert QueuesOk(r.threads, r.queues) by {
      forall q' | q' in r.queues ensures QueueOk(r.queues[q'], r.threads) {
        assert QueueOk(s.queues[q'], s.threads);
      }
    }
  }

  /** A queue left without owner (and index -1) keeps the invariant. */
  lemma ClearOwnerConsistent(s: State, q: QueueId)
    requires Consistent(s) && q in s.queues
    ensures Consistent(s.(queues := s.queues[q := s.queues[q].(owner := None, ownerIndex := -1)]))
  {
    var r := s.(queues := s.queues[q := s.queues[q].(owner := None, ownerIndex := -1)]);
    assert WaitsOk(r.threads, r.queues) by {
      forall u, i | u in r.threads && 0 <= i < |r.threads[u].waitingQueues|
        ensures r.threads[u].waitingQueues[i] in r.queues
        ensures r.queues[r.threads[u].waitingQueues[i]].owner != Some(u)
      {
        assert s.threads[u].waitingQueues[i] in s.queues;
      }
    }
    assert QueuesOk(r.threads, r.queues) by {
      forall q' | q' in r.queues ensures QueueOk(r.queues[q'], r.threads) {
        assert QueueOk(s.queues[q'], s.threads);
      }
    }
  }

  /**
   * ThreadState.waitForAccess(q), lines 310-318: a thread that owns q and
   * now waits on it first gives q up, and its slot for q if q transfers.
   */
  function GiveUpOwnQueue(s: State, t: ThreadId, q: QueueId): (r: State)
    requires Consistent(s) && t in s.threads && OwnerSlotOk(s.threads, s.queues, q)
    ensures Consistent(r) && OwnerSlotOk(r.threads, r.queues, q)
    ensures r.threads.Keys == s.threads.Keys && r.queues.Keys == s.queues.Keys
    ensures r.queues[q].owner != Some(t)
    ensures r.queues[q].waiters == s.queues[q].waiters
    ensures r.queues[q].transferPriority == s.queues[q].transferPriority
    ensures r.threads[t].waitingQueues == s.threads[t].waitingQueues
    ensures forall u :: u in s.threads && u != t ==> r.threads[u] == s.threads[u]
    ensures forall q' :: q' in s.queues && q' != q ==> r.queues[q'] == s.queues[q']
  {
    var Q := s.queues[q];
    if Q.owner == Some(t) then
      var s1 := if Q.transferPriority then (DropOwnerSlotConsistent(s, q); DropOwnerSlot(s, q)) else s;
      ClearOwnerConsistent(s1, q);
      s1.(queues := s1.queues[q := s1.queues[q].(owner := None, ownerIndex := -1)])
    else s
  }

  /**
   * ThreadState.waitForAccess(q), lines 319-320: t joins q's waiters and q
   * joins the queues t waits on.
   */
  function Enqueue(s: State, t: ThreadId, q: QueueId): (r: State)
    requires t in s.threads && q in s.queues
    ensures r.threads.Keys == s.threads.Keys && r.queues.Keys == s.queues.Keys
    ensures forall u :: u in s.threads ==> r.threads[u].slots == s.threads[u].slots
    ensures forall q' :: q' in s.queues ==> r.queues[q'].owner == s.queues[q'].owner
    ensures forall q' :: q' in s.queues ==> r.queues[q'].ownerIndex == s.queues[q'].ownerIndex
    ensures forall q' :: q' in s.queues ==> r.queues[q'].transferPriority == s.queues[q'].transferPriority
  {
    var Q := s.queues[q];
    var ts := s.threads[t];
    State(s.threads[t := ts.(waitingQueues := AddIfAbsent(ts.waitingQueues, q))],
          s.queues[q := Q.(waiters := Q.waiters + [t])])
  }

  /** Enqueueing a thread on a queue it does not own keeps the invariant. */
  lemma EnqueueConsistent(s: State, t: ThreadId, q: QueueId)
    requires Consistent(s) && t in s.threads && q in s.queues && s.queues[q].owner != Some(t)
    ensures Consistent(Enqueue(s, t, q))
  {
    var r := Enqueue(s, t, q);
    var ts := s.threads[t];
    assert AllWellFormed(r.threads) by {
      forall u | u in r.threads ensures WellFormed(r.threads[u]) {
        assert WellFormed(s.threads[u]);
      }
    }
    assert QueuesOk(r.threads, r.queues) by {
      forall q' | q' in r.queues ensures QueueOk(r.queues[q'], r.threads) {
        assert QueueOk(s.queues[q'], s.threads);
      }
    }
    assert WaitsOk(r.threads, r.queues) by {
      forall u, i | u in r.threads && 0 <= i < |r.threads[u].waitingQueues|
        ensures r.threads[u].waitingQueues[i] in r.queues
        ensures r.queues[r.threads[u].waitingQueues[i]].owner != Some(u)
      {
        var w := r.threads[u].waitingQueues[i];
        if u != t {
          assert w == s.threads[u].waitingQueues[i];
        } else if w != q {
          var j :| 0 <= j < |ts.waitingQueues| && ts.waitingQueues[j] == w;
        }
      }
    }
  }

  /**
   * ThreadState.waitForAccess(q), lines 309-325: give q up if t owns it,
   * join its waiters, then, if q transfers and has an owner, donate t's
   * effective priority to that owner's slot for q.
   */
  function WaitForAccessStep(s: State, t: ThreadId, q: QueueId): (r: State)
    requires Consistent(s) && t in s.threads && OwnerSlotOk(s.threads, s.queues, q)
    ensures r.threads.Keys == s.threads.Keys && r.queues.Keys == s.queues.Keys
    ensures r.queues[q].waiters == s.queues[q].waiters + [t]
  {
    var s1 := GiveUpOwnQueue(s, t, q);
    var s2 := Enqueue(s1, t, q);
    assert WellFormed(s1.threads[t]);
    assert OwnerSlotOk(s2.threads, s2.queues, q);
    s2.(threads := DonateTo(s2.threads, s2.queues, q, EffectivePriority(s2.threads[t])))
  }

  /**
   * ThreadState.acquire(q), lines 337-352: t leaves q's waiters (one
   * occurrence) and q's waited-on set, becomes the owner, and, if q
   * transfers, gets a new slot holding its current effective priority.
   * The previous owner's slot is left where it is.
   */
  function AcquireStep(s: State, t: ThreadId, q: QueueId): (r: State)
    requires t in s.threads && |s.threads[t].slots| > 0 && q in s.queues
    ensures q in r.queues && r.queues[q].owner == Some(t)
    ensures multiset(r.queues[q].waiters) == multiset(s.queues[q].waiters) - multiset{t}
  {
    var Q := s.queues[q];
    var ts := s.threads[t];
    var ts1 := ts.(waitingQueues := RemoveFirst(ts.waitingQueues, q));
    var Q1 := Q.(waiters := RemoveFirst(Q.waiters, t), owner := Some(t));
    if Q.transferPriority then
      var ts2 := ts1.(slots := ts1.slots + [EffectivePriority(ts1)]);
      State(s.threads[t := ts2], s.queues[q := Q1.(ownerIndex := |ts2.slots| - 1)])
    else
      State(s.threads[t := ts1], s.queues[q := Q1])
  }

  /** nextThread, lines 153-158: the outgoing owner of a transferring queue loses its slot for it. */
  function ReleaseOwnerSlot(s: State, q: QueueId): (r: State)
    requires Consistent(s) && OwnerSlotOk(s.threads, s.queues, q)
    ensures Consistent(r) && r.queues.Keys == s.queues.Keys
    ensures q in r.queues && r.queues[q].waiters == s.queues[q].waiters
    ensures r.queues[q].owner == s.queues[q].owner
    ensures r.queues[q].transferPriority == s.queues[q].transferPriority
  {
    var Q := s.queues[q];
    if Q.owner.Some? && Q.transferPriority then
      DropOwnerSlotConsistent(s, q);
      DropOwnerSlot(s, q)
    else s
  }

  /**
   * PriorityQueue.nextThread, lines 150-161: release the outgoing owner's
   * slot, then, if anybody waits, poll the comparator-first waiter and let it
   * acquire q.
   */
  function NextThreadStep(s: State, q: QueueId): (r: Handoff)
    requires Consistent(s) && OwnerSlotOk(s.threads, s.queues, q)
    ensures r.chosen.None? <==> |s.queues[q].waiters| == 0
    ensures r.chosen.Some? ==> r.chosen.value in s.queues[q].waiters
    ensures r.chosen.Some? ==> q in r.state.queues && r.state.queues[q].owner == r.chosen
  {
    var s1 := ReleaseOwnerSlot(s, q);
    if |s1.queues[q].waiters| == 0 then Handoff(s1, None)
    else
      ConsistentRegistered(s1, q);
      Poll(s1, q)
  }

  /** nextThread, lines 159-161: the comparator-first waiter is polled and then acquires q. */
  function Poll(s: State, q: QueueId): (r: Handoff)
    requires q in s.queues && |s.queues[q].waiters| > 0 && Registered(s.threads, s.queues[q].waiters)
    ensures r.chosen.Some? && r.chosen.value in s.queues[q].waiters
    ensures q in r.state.queues && r.state.queues[q].owner == r.chosen
  {
    var ws := s.queues[q].waiters;
    var k := BestWaiter(ws, s.threads);
    var s2 := s.(queues := s.queues[q := s.queues[q].(waiters := RemoveAt(ws, k))]);
    Handoff(AcquireStep(s2, ws[k], q), Some(ws[k]))
  }
}
