/**
 * The priority scheduler as the kernel calls it: one object holding every
 * thread's scheduling record and every thread queue, updated in place by
 * each call. Every call runs with interrupts disabled; the clock reading a
 * new record is stamped with is passed in as `now`, and the calling thread
 * (KThread.currentThread()) as `t`.
 *
 * Each method performs the updates of the Java code in the same order and is
 * proved to end in the state the matching function of PriorityModel gives;
 * what those functions guarantee is proved in PriorityProperties.
 */
module PriorityScheduler {
  import opened Common
  import opened Lists
  import opened PriorityModel
  import opened PriorityProperties

  class Scheduler {
    /** The scheduling state of every thread seen so far (KThread.schedulingState). */
    var threads: map<ThreadId, ThreadState>
    /** Every queue created by NewThreadQueue. */
    var queues: map<QueueId, QueueState>
    /** The identity the next new queue receives. */
    var queueCount: nat

    ghost function Snapshot(): State
      reads this
    {
      State(threads, queues)
    }

    ghost predicate Valid()
      reads this
    {
      Consistent(Snapshot()) && forall q :: q in queues ==> q < queueCount
    }

    constructor ()
      ensures Valid() && threads == map[] && queues == map[]
    {
      threads := map[];
      queues := map[];
      queueCount := 0;
    }

    /** newThreadQueue(transferPriority): a fresh queue, with no owner and nobody waiting. */
    method NewThreadQueue(transferPriority: bool) returns (q: QueueId)
      requires Valid()
      modifies this`queues, this`queueCount
      ensures Valid() && q !in old(queues)
      ensures Snapshot() == NewQueue(old(Snapshot()), q, transferPriority)
    {
      q := queueCount;
      NewQueueConsistent(Snapshot(), q, transferPriority);
      queues := queues[q := QueueState(transferPriority, [], None, -1)];
      queueCount := queueCount + 1;
    }

    /** getThreadState(t): creates t's record, stamped with now, the first time t is seen. */
    method GetThreadState(t: ThreadId, now: int)
      requires Valid()
      modifies this`threads
      ensures Valid() && Snapshot() == Known(old(Snapshot()), t, now)
    {
      KnownConsistent(Snapshot(), t, now);
      if t !in threads {
        threads := threads[t := NewThreadState(now)];
      }
    }

    /** getPriority(t): t's base priority. */
    method GetPriority(t: ThreadId, now: int) returns (p: int)
      requires Valid()
      modifies this`threads
      ensures Valid() && Snapshot() == Known(old(Snapshot()), t, now)
      ensures p == threads[t].priority && InRange(p)
    {
      GetThreadState(t, now);
      p := threads[t].priority;
    }

    /** getEffectivePriority(t): t's largest slot, never below its base priority. */
    method GetEffectivePriority(t: ThreadId, now: int) returns (p: int)
      requires Valid()
      modifies this`threads
      ensures Valid() && Snapshot() == Known(old(Snapshot()), t, now)
      ensures p == EffectivePriority(threads[t])
      ensures threads[t].priority <= p && InRange(p)
    {
      GetThreadState(t, now);
      p := EffectivePriority(threads[t]);
      EffectiveAtLeastBase(threads[t]);
    }

    /** ThreadState.removeEffectivePriority(i): ArrayList.remove(int) on u's slots. */
    method RemoveEffectivePriority(u: ThreadId, i: int)
      requires u in threads && 0 <= i < |threads[u].slots|
      modifies this`threads
      ensures threads == old(threads)[u := old(threads)[u].(slots := RemoveAt(old(threads)[u].slots, i))]
    {
      threads := threads[u := threads[u].(slots := RemoveAt(threads[u].slots, i))];
    }

    /** ThreadState.setEffectivePriority(v, i): u's slot i becomes v if v is larger. */
    method SetEffectivePriority(u: ThreadId, v: int, i: int)
      requires u in threads && 0 <= i < |threads[u].slots|
      modifies this`threads
      ensures threads == old(threads)[u := old(threads)[u].(slots := RaiseSlot(old(threads)[u].slots, i, v))]
    {
      if threads[u].slots[i] < v {
        threads := threads[u := threads[u].(slots := threads[u].slots[i := v])];
      }
    }

    /**
     * ThreadState.setPriority(p): the base and slot 0 become p; then, for each
     * queue t waits on that transfers and has an owner, that owner's slot for
     * the queue is raised to t's effective priority.
     */
    method StateSetPriority(t: ThreadId, p: int)
      requires Valid() && InRange(p) && SetPriorityDefined(Snapshot(), t)
      modifies this`threads
      ensures Valid() && Snapshot() == SetPriorityStep(old(Snapshot()), t, p)
      ensures threads[t] == Rebase(old(threads)[t], p)
    {
      ghost var s := Snapshot();
      NotOwnerOfWaitedQueues(s, t);
      threads := threads[t := threads[t].(priority := p, slots := threads[t].slots[0 := p])];
      var ws := threads[t].waitingQueues;
      assert DonationTargetsOk(threads, queues, ws) by {
        forall i | 0 <= i < |ws| ensures OwnerSlotOk(threads, queues, ws[i]) {
          assert OwnerSlotOk(s.threads, queues, ws[i]);
        }
      }
      DonateThrough(t, ws);
      SetPriorityConsistent(s, t, p);
    }

    /**
     * The loop of setPriority, lines 277-283: t's effective priority, read
     * afresh on each pass, goes to the owner of each transferring queue of
     * ws. t owns none of them, so every pass reads the same value.
     */
    method DonateThrough(t: ThreadId, ws: seq<QueueId>)
      requires t in threads && |threads[t].slots| > 0
      requires DonationTargetsOk(threads, queues, ws) && !OwnsTransferring(queues, ws, t)
      modifies this`threads
      ensures threads == Donate(old(threads), queues, ws, EffectivePriority(old(threads)[t]))
      ensures threads[t] == old(threads)[t]
    {
      ghost var th0 := threads;
      ghost var e := EffectivePriority(th0[t]);
      for i := 0 to |ws|
        invariant DonationTargetsOk(th0, queues, ws[..i])
        invariant threads == Donate(th0, queues, ws[..i], e)
        invariant threads[t] == th0[t]
      {
        assert ws[..i + 1][..i] == ws[..i];
        var Q := queues[ws[i]];
        if Q.transferPriority && Q.owner.Some? {
          assert OwnerSlotOk(th0, queues, ws[i]);
          assert Q.owner != Some(t);
          SetEffectivePriority(Q.owner.value, EffectivePriority(threads[t]), Q.ownerIndex);
        }
      }
      assert ws[..|ws|] == ws;
    }

    /** setPriority(t, p): p must be a valid priority (the Java code asserts it), then as above. */
    method SetPriority(t: ThreadId, p: int, now: int)
      requires Valid() && InRange(p)
      requires t in threads ==> SetPriorityDefined(Snapshot(), t)
      modifies this`threads
      ensures Valid() && Snapshot() == SetPriorityStep(Known(old(Snapshot()), t, now), t, p)
    {
      GetThreadState(t, now);
      StateSetPriority(t, p);
    }

    /**
     * increasePriority() for the current thread t: false, and nothing but
     * the lazy creation of t's record, at the maximum priority; otherwise the
     * base goes up by exactly one, through setPriority.
     */
    method IncreasePriority(t: ThreadId, now: int) returns (ok: bool)
      requires Valid()
      requires t in threads && threads[t].priority != PriorityMaximum ==> SetPriorityDefined(Snapshot(), t)
      modifies this`threads
      ensures Valid()
      ensures var k := Known(old(Snapshot()), t, now);
        ok == (k.threads[t].priority != PriorityMaximum)
      ensures var k := Known(old(Snapshot()), t, now);
        ok ==> Snapshot() == SetPriorityStep(k, t, k.threads[t].priority + 1) && threads[t].priority == k.threads[t].priority + 1
      ensures !ok ==> Snapshot() == Known(old(Snapshot()), t, now)
    {
      ghost var s := Snapshot();
      ghost var k := Known(s, t, now);
      var p := GetPriority(t, now);
      assert p == k.threads[t].priority;
      if p == PriorityMaximum {
        return false;
      }
      assert SetPriorityDefined(k, t) by {
        if t !in s.threads {
          assert k.threads[t].waitingQueues == [];
        }
      }
      StateSetPriority(t, p + 1);
      assert Snapshot() == SetPriorityStep(k, t, p + 1);
      return true;
    }

    /** decreasePriority() for the current thread t: the mirror image at the minimum priority. */
    method DecreasePriority(t: ThreadId, now: int) returns (ok: bool)
      requires Valid()
      requires t in threads && threads[t].priority != PriorityMinimum ==> SetPriorityDefined(Snapshot(), t)
      modifies this`threads
      ensures Valid()
      ensures var k := Known(old(Snapshot()), t, now);
        ok == (k.threads[t].priority != PriorityMinimum)
      ensures var k := Known(old(Snapshot()), t, now);
        ok ==> Snapshot() == SetPriorityStep(k, t, k.threads[t].priority - 1) && threads[t].priority == k.threads[t].priority - 1
      ensures !ok ==> Snapshot() == Known(old(Snapshot()), t, now)
    {
      ghost var s := Snapshot();
      ghost var k := Known(s, t, now);
      var p := GetPriority(t, now);
      assert p == k.threads[t].priority;
      if p == PriorityMinimum {
        return false;
      }
      assert SetPriorityDefined(k, t) by {
        if t !in s.threads {
          assert k.threads[t].waitingQueues == [];
        }
      }
      StateSetPriority(t, p - 1);
      assert Snapshot() == SetPriorityStep(k, t, p - 1);
      return true;
    }

    /** waitForAccess, lines 310-318: a thread waiting on the queue it owns gives it up first. */
    method LeaveOwnQueue(t: ThreadId, q: QueueId)
      requires Valid() && t in threads && OwnerSlotOk(threads, queues, q)
      modifies this`threads, this`queues
      ensures Valid() && Snapshot() == GiveUpOwnQueue(old(Snapshot()), t, q)
    {
      assert QueueOk(queues[q], threads);
      if queues[q].owner == Some(t) {
        if queues[q].transferPriority {
          RemoveEffectivePriority(t, queues[q].ownerIndex);
        }
        queues := queues[q := queues[q].(owner := None, ownerIndex := -1)];
      }
    }

    /**
     * ThreadState.waitForAccess(q): give q up if t owns it, join its waiters,
     * and donate t's effective priority to q's owner if q transfers.
     */
    method StateWaitForAccess(t: ThreadId, q: QueueId)
      requires Valid() && t in threads && OwnerSlotOk(threads, queues, q)
      modifies this`threads, this`queues
      ensures Valid() && Snapshot() == WaitForAccessStep(old(Snapshot()), t, q)
    {
      ghost var s := Snapshot();
      LeaveOwnQueue(t, q);
      queues := queues[q := queues[q].(waiters := queues[q].waiters + [t])];
      threads := threads[t := threads[t].(waitingQueues := AddIfAbsent(threads[t].waitingQueues, q))];
      assert Snapshot() == Enqueue(GiveUpOwnQueue(s, t, q), t, q);
      var Q := queues[q];
      if Q.transferPriority && Q.owner.Some? {
        SetEffectivePriority(Q.owner.value, EffectivePriority(threads[t]), Q.ownerIndex);
      }
      WaitForAccessConsistent(s, t, q);
    }

    /** PriorityQueue.waitForAccess(t) on q. */
    method WaitForAccess(q: QueueId, t: ThreadId, now: int)
      requires Valid() && OwnerSlotOk(threads, queues, q)
      modifies this`threads, this`queues
      ensures Valid() && Snapshot() == WaitForAccessStep(Known(old(Snapshot()), t, now), t, q)
    {
      GetThreadState(t, now);
      StateWaitForAccess(t, q);
    }

    /**
     * ThreadState.acquire(q): t leaves q's waiters and the queues it waits
     * on, becomes q's owner and, if q transfers, gets a new slot for q.
     */
    method StateAcquire(t: ThreadId, q: QueueId)
      requires t in threads && |threads[t].slots| > 0 && q in queues
      modifies this`threads, this`queues
      ensures Snapshot() == AcquireStep(old(Snapshot()), t, q)
    {
      var Q := queues[q];
      var ts := threads[t].(waitingQueues := RemoveFirst(threads[t].waitingQueues, q));
      var granted := Q.(waiters := RemoveFirst(Q.waiters, t), owner := Some(t));
      if Q.transferPriority {
        ts := ts.(slots := ts.slots + [EffectivePriority(ts)]);
        granted := granted.(ownerIndex := |ts.slots| - 1);
      }
      threads := threads[t := ts];
      queues := queues[q := granted];
    }

    /** ThreadState.acquire(q) on a valid scheduler, which stays valid. */
    method Grant(t: ThreadId, q: QueueId)
      requires Valid() && t in threads && q in queues
      modifies this`threads, this`queues
      ensures Valid() && Snapshot() == AcquireStep(old(Snapshot()), t, q)
    {
      assert WellFormed(threads[t]);
      AcquireConsistent(Snapshot(), t, q);
      assert AcquireStep(Snapshot(), t, q).queues.Keys == queues.Keys;
      StateAcquire(t, q);
    }

    /** PriorityQueue.acquire(t) on q. */
    method Acquire(q: QueueId, t: ThreadId, now: int)
      requires Valid() && q in queues
      modifies this`threads, this`queues
      ensures Valid() && Snapshot() == AcquireStep(Known(old(Snapshot()), t, now), t, q)
    {
      GetThreadState(t, now);
      Grant(t, q);
    }

    /** nextThread's first step: the outgoing owner of a transferring q loses its slot for q. */
    method ReleaseOwner(q: QueueId)
      requires Valid() && OwnerSlotOk(threads, queues, q)
      modifies this`threads, this`queues
      ensures Valid() && Snapshot() == ReleaseOwnerSlot(old(Snapshot()), q)
    {
      var Q := queues[q];
      assert QueueOk(Q, threads);
      if Q.owner.Some? && Q.transferPriority {
        RemoveEffectivePriority(Q.owner.value, Q.ownerIndex);
        queues := queues[q := Q.(ownerIndex := -1)];
      }
    }

    /** nextThread's second step: the comparator-first waiter is polled, acquires q and is returned. */
    method PollWaiter(q: QueueId) returns (w: ThreadId)
      requires Valid() && q in queues && |queues[q].waiters| > 0
      modifies this`threads, this`queues
      ensures Valid() && Handoff(Snapshot(), Some(w)) == Poll(old(Snapshot()), q)
    {
      ghost var s := Snapshot();
      ConsistentRegistered(s, q);
      var ws := queues[q].waiters;
      var k := BestWaiter(ws, threads);
      w := ws[k];
      PollConsistent(s, q, k);
      queues := queues[q := queues[q].(waiters := RemoveAt(ws, k))];
      Grant(w, q);
    }

    /** PriorityQueue.nextThread() on q: ReleaseOwner, then PollWaiter if anybody waits. */
    method NextThread(q: QueueId) returns (next: Option<ThreadId>)
      requires Valid() && OwnerSlotOk(threads, queues, q)
      modifies this`threads, this`queues
      ensures Valid() && Handoff(Snapshot(), next) == NextThreadStep(old(Snapshot()), q)
    {
      ReleaseOwner(q);
      if |queues[q].waiters| == 0 {
        return None;
      }
      var w := PollWaiter(q);
      next := Some(w);
    }
  }
}
