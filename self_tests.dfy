/**
 * SelfTests.testPriorityScheduler, line by line, over the step functions of
 * PriorityModel: three transferring queues tq1, tq2, tq3 (ids 0, 1, 2) and
 * threads kt_1 .. kt_5 (ids 1 .. 5). Interrupts stay disabled for the whole
 * test, so the clock does not move and every record is stamped with the
 * same time `now`.
 *
 * Donation reaches only the direct owner of a queue, so kt_4, at the end of
 * the chain kt_1 -> tq1 -> kt_2 -> tq2 -> kt_3 -> tq3 -> kt_4, keeps its
 * effective priority 1: the assertion of line 35, which expects 6, fails
 * and ends the test there. The states past line 35 replay the remaining
 * lines as if that assertion were skipped; in that replay line 43's 7 fails
 * as well, and line 47's 1 holds.
 */
module SelfTestScenario {
  import opened Common
  import opened PriorityModel
  import opened PriorityProperties
  import opened Lists

  const Tq1: QueueId := 0
  const Tq2: QueueId := 1
  const Tq3: QueueId := 2

  /** The record of a thread created at time now and never changed since. */
  function Fresh(now: int, waitingQueues: seq<QueueId>): ThreadState {
    NewThreadState(now).(waitingQueues := waitingQueues)
  }

  /** Lines 14-16: three transferring queues; no thread has a record yet. */
  function Start(): State {
    State(map[], map[Tq1 := QueueState(true, [], None, -1),
                     Tq2 := QueueState(true, [], None, -1),
                     Tq3 := QueueState(true, [], None, -1)])
  }

  /** Line 24: kt_1 waits on tq1. */
  function AfterLine24(now: int): State {
    State(Start().threads[1 := Fresh(now, [Tq1])],
          Start().queues[Tq1 := QueueState(true, [1], None, -1)])
  }

  /** Line 25: kt_2 waits on tq2. */
  function AfterLine25(now: int): State {
    State(AfterLine24(now).threads[2 := Fresh(now, [Tq2])],
          AfterLine24(now).queues[Tq2 := QueueState(true, [2], None, -1)])
  }

  /** Line 26: kt_3 waits on tq3. */
  function AfterLine26(now: int): State {
    State(AfterLine25(now).threads[3 := Fresh(now, [Tq3])],
          AfterLine25(now).queues[Tq3 := QueueState(true, [3], None, -1)])
  }

  /**
   * Line 28: kt_2 acquires tq1 and gets a slot holding its own effective
   * priority 1; kt_1, already waiting, donates nothing and stays queued.
   */
  function AfterLine28(now: int): State {
    State(AfterLine26(now).threads[2 := ThreadState(1, [1, 1], now, [Tq2])],
          AfterLine26(now).queues[Tq1 := QueueState(true, [1], Some(2), 1)])
  }

  /** Line 29: kt_3 acquires tq2. */
  function AfterLine29(now: int): State {
    State(AfterLine28(now).threads[3 := ThreadState(1, [1, 1], now, [Tq3])],
          AfterLine28(now).queues[Tq2 := QueueState(true, [2], Some(3), 1)])
  }

  /** Line 30: kt_4 gets its record and acquires tq3. */
  function AfterLine30(now: int): State {
    State(AfterLine29(now).threads[4 := ThreadState(1, [1, 1], now, [])],
          AfterLine29(now).queues[Tq3 := QueueState(true, [3], Some(4), 1)])
  }

  /** Line 32: kt_1 goes to 6 and donates 6 to kt_2, the owner of tq1, and to nobody further. */
  function AfterLine32(now: int): State {
    State(AfterLine30(now).threads[1 := ThreadState(6, [6], now, [Tq1])][2 := ThreadState(1, [1, 6], now, [Tq2])],
          AfterLine30(now).queues)
  }

  /** Line 39: kt_5 gets its record and priority 7. */
  function AfterLine39(now: int): State {
    State(AfterLine32(now).threads[5 := ThreadState(7, [7], now, [])], AfterLine30(now).queues)
  }

  /** Line 41: kt_5 waits on tq1 and raises kt_2's slot for tq1 to 7. */
  function AfterLine41(now: int): State {
    State(AfterLine39(now).threads[5 := ThreadState(7, [7], now, [Tq1])][2 := ThreadState(1, [1, 7], now, [Tq2])],
          AfterLine39(now).queues[Tq1 := QueueState(true, [1, 5], Some(2), 1)])
  }

  /** Line 45, first half: kt_2 gives back its slot for tq1. */
  function Released45(now: int): State {
    State(AfterLine41(now).threads[2 := ThreadState(1, [1], now, [Tq2])],
          AfterLine41(now).queues[Tq1 := QueueState(true, [1, 5], Some(2), -1)])
  }

  /**
   * Line 45, second half: kt_5 (effective 7) goes before kt_1 (effective 6),
   * is polled and acquires tq1.
   */
  function AfterLine45(now: int): State {
    State(Released45(now).threads[5 := ThreadState(7, [7, 7], now, [])],
          Released45(now).queues[Tq1 := QueueState(true, [1], Some(5), 1)])
  }

  /** waitForAccess on a queue t does not own: t is enqueued, then donates to the owner. */
  lemma WaitOnOther(s: State, t: ThreadId, q: QueueId)
    requires Consistent(s) && t in s.threads && OwnerSlotOk(s.threads, s.queues, q)
    requires s.queues[q].owner != Some(t)
    ensures OwnerSlotOk(Enqueue(s, t, q).threads, Enqueue(s, t, q).queues, q)
    ensures WaitForAccessStep(s, t, q)
         == Enqueue(s, t, q).(threads := DonateTo(Enqueue(s, t, q).threads, Enqueue(s, t, q).queues, q,
                                                  EffectivePriority(s.threads[t])))
  {
    assert GiveUpOwnQueue(s, t, q) == s;
  }

  /** waitForAccess on a queue without owner only enqueues. */
  lemma WaitOnUnowned(s: State, t: ThreadId, q: QueueId)
    requires Consistent(s) && t in s.threads && q in s.queues && s.queues[q].owner.None?
    ensures WaitForAccessStep(s, t, q) == Enqueue(s, t, q)
  {
    WaitOnOther(s, t, q);
  }

  lemma StartConsistent()
    ensures Consistent(Start())
  {
  }

  lemma Enqueue24(now: int)
    ensures Enqueue(Known(Start(), 1, now), 1, Tq1) == AfterLine24(now)
  {
    assert AddIfAbsent([], Tq1) == [Tq1];
    assert [] + [1] == [1];
  }

  lemma Enqueue25(now: int)
    ensures Enqueue(Known(AfterLine24(now), 2, now), 2, Tq2) == AfterLine25(now)
  {
    assert AddIfAbsent([], Tq2) == [Tq2];
    assert [] + [2] == [2];
  }

  lemma Enqueue26(now: int)
    ensures Enqueue(Known(AfterLine25(now), 3, now), 3, Tq3) == AfterLine26(now)
  {
    assert AddIfAbsent([], Tq3) == [Tq3];
    assert [] + [3] == [3];
  }

  lemma Line24(now: int)
    ensures Consistent(Known(Start(), 1, now))
    ensures WaitForAccessStep(Known(Start(), 1, now), 1, Tq1) == AfterLine24(now)
  {
    StartConsistent();
    KnownConsistent(Start(), 1, now);
    WaitOnUnowned(Known(Start(), 1, now), 1, Tq1);
    Enqueue24(now);
  }

  lemma Line25(now: int)
    requires Consistent(AfterLine24(now))
    ensures WaitForAccessStep(Known(AfterLine24(now), 2, now), 2, Tq2) == AfterLine25(now)
  {
    KnownConsistent(AfterLine24(now), 2, now);
    WaitOnUnowned(Known(AfterLine24(now), 2, now), 2, Tq2);
    Enqueue25(now);
  }

  lemma Line26(now: int)
    requires Consistent(AfterLine25(now))
    ensures WaitForAccessStep(Known(AfterLine25(now), 3, now), 3, Tq3) == AfterLine26(now)
  {
    KnownConsistent(AfterLine25(now), 3, now);
    WaitOnUnowned(Known(AfterLine25(now), 3, now), 3, Tq3);
    Enqueue26(now);
  }

  lemma Through24Consistent(now: int)
    ensures Consistent(AfterLine24(now))
  {
    Line24(now);
    WaitForAccessConsistent(Known(Start(), 1, now), 1, Tq1);
  }

  lemma Through25Consistent(now: int)
    ensures Consistent(AfterLine25(now))
  {
    Through24Consistent(now);
    KnownConsistent(AfterLine24(now), 2, now);
    Line25(now);
    WaitForAccessConsistent(Known(AfterLine24(now), 2, now), 2, Tq2);
  }

  lemma Through26Consistent(now: int)
    ensures Consistent(AfterLine26(now))
  {
    Through25Consistent(now);
    KnownConsistent(AfterLine25(now), 3, now);
    Line26(now);
    WaitForAccessConsistent(Known(AfterLine25(now), 3, now), 3, Tq3);
  }

  lemma Line28(now: int)
    ensures AcquireStep(Known(AfterLine26(now), 2, now), 2, Tq1) == AfterLine28(now)
  {
    var s := AfterLine26(now);
    assert Known(s, 2, now) == s;
    assert RemoveFirst([1], 2) == [1];
    assert RemoveFirst([Tq2], Tq1) == [Tq2];
    assert MaxOf([1]) == 1;
    assert [1] + [1] == [1, 1];
    assert s.threads[2 := ThreadState(1, [1, 1], now, [Tq2])] == AfterLine28(now).threads;
    assert s.queues[Tq1 := QueueState(true, [1], Some(2), 1)] == AfterLine28(now).queues;
  }

  lemma Line29(now: int)
    ensures AcquireStep(Known(AfterLine28(now), 3, now), 3, Tq2) == AfterLine29(now)
  {
    var s := AfterLine28(now);
    assert Known(s, 3, now) == s;
    assert RemoveFirst([2], 3) == [2];
    assert RemoveFirst([Tq3], Tq2) == [Tq3];
    assert MaxOf([1]) == 1;
    assert [1] + [1] == [1, 1];
    assert s.threads[3 := ThreadState(1, [1, 1], now, [Tq3])] == AfterLine29(now).threads;
    assert s.queues[Tq2 := QueueState(true, [2], Some(3), 1)] == AfterLine29(now).queues;
  }

  lemma Line30(now: int)
    ensures AcquireStep(Known(AfterLine29(now), 4, now), 4, Tq3) == AfterLine30(now)
  {
    var s0 := AfterLine29(now);
    assert 4 !in s0.threads;
    AcquireByNewcomer(s0, 4, Tq3, now);
    assert RemoveFirst([3], 4) == [3];
  }

  /** A thread seen for the first time acquires a free transferring queue: its slot for it holds 1. */
  lemma AcquireByNewcomer(s: State, t: ThreadId, q: QueueId, now: int)
    requires t !in s.threads && q in s.queues && s.queues[q].transferPriority && s.queues[q].owner == None
    ensures AcquireStep(Known(s, t, now), t, q) ==
      State(s.threads[t := ThreadState(1, [1, 1], now, [])],
            s.queues[q := s.queues[q].(waiters := RemoveFirst(s.queues[q].waiters, t), owner := Some(t), ownerIndex := 1)])
  {
    var k := Known(s, t, now);
    assert k.threads[t] == Fresh(now, []);
    assert RemoveFirst([], q) == [];
    assert MaxOf([1]) == 1;
    assert [1] + [1] == [1, 1];
    assert k.threads[t := ThreadState(1, [1, 1], now, [])] == s.threads[t := ThreadState(1, [1, 1], now, [])];
  }

  lemma Through30Consistent(now: int)
    ensures Consistent(AfterLine30(now))
  {
    Through26Consistent(now);
    Line28(now);
    assert Known(AfterLine26(now), 2, now) == AfterLine26(now);
    AcquireConsistent(AfterLine26(now), 2, Tq1);
    Line29(now);
    assert Known(AfterLine28(now), 3, now) == AfterLine28(now);
    AcquireConsistent(AfterLine28(now), 3, Tq2);
    Line30(now);
    KnownConsistent(AfterLine29(now), 4, now);
    AcquireConsistent(Known(AfterLine29(now), 4, now), 4, Tq3);
  }

  lemma Line32(now: int)
    ensures SetPriorityStep(Known(AfterLine30(now), 1, now), 1, 6) == AfterLine32(now)
  {
    var s := AfterLine30(now);
    assert Known(s, 1, now) == s;
    var ts := Rebase(s.threads[1], 6);
    assert ts == ThreadState(6, [6], now, [Tq1]);
    var th := s.threads[1 := ts];
    assert MaxOf([6]) == 6;
    assert Donate(th, s.queues, [], 6) == th;
    assert [Tq1][..0] == [];
    assert RaiseSlot([1, 1], 1, 6) == [1, 6];
    assert Donate(th, s.queues, [Tq1], 6) == th[2 := th[2].(slots := [1, 6])];
  }

  lemma Line39(now: int)
    ensures SetPriorityStep(Known(AfterLine32(now), 5, now), 5, 7) == AfterLine39(now)
  {
    var s := Known(AfterLine32(now), 5, now);
    assert s.threads == AfterLine32(now).threads[5 := Fresh(now, [])];
    assert Rebase(s.threads[5], 7) == ThreadState(7, [7], now, []);
  }

  lemma Through32Consistent(now: int)
    ensures Consistent(AfterLine32(now))
  {
    Through30Consistent(now);
    var s := AfterLine30(now);
    assert Known(s, 1, now) == s;
    assert SetPriorityDefined(s, 1) by {
      assert OwnerSlotOk(s.threads, s.queues, Tq1);
    }
    SetPriorityConsistent(s, 1, 6);
    Line32(now);
  }

  lemma Through39Consistent(now: int)
    ensures Consistent(AfterLine39(now))
  {
    Through32Consistent(now);
    KnownConsistent(AfterLine32(now), 5, now);
    var s1 := Known(AfterLine32(now), 5, now);
    assert s1.threads[5].waitingQueues == [];
    SetPriorityConsistent(s1, 5, 7);
    Line39(now);
  }

  /** What waitForAccess computes at line 41 once kt_5's record exists. */
  lemma Line41Donation(now: int)
    ensures var s := AfterLine39(now);
      var ts := s.threads[5];
      var s2 := State(s.threads[5 := ts.(waitingQueues := AddIfAbsent(ts.waitingQueues, Tq1))],
                      s.queues[Tq1 := s.queues[Tq1].(waiters := s.queues[Tq1].waiters + [5])]);
      && OwnerSlotOk(s2.threads, s2.queues, Tq1)
      && s2.(threads := DonateTo(s2.threads, s2.queues, Tq1, EffectivePriority(ts))) == AfterLine41(now)
  {
    var s := AfterLine39(now);
    assert AddIfAbsent(s.threads[5].waitingQueues, Tq1) == [Tq1];
    assert s.queues[Tq1].waiters + [5] == [1, 5];
    assert MaxOf([7]) == 7;
    assert RaiseSlot([1, 6], 1, 7) == [1, 7];
  }

  lemma Line41(now: int)
    requires Consistent(AfterLine39(now))
    ensures WaitForAccessStep(Known(AfterLine39(now), 5, now), 5, Tq1) == AfterLine41(now)
  {
    var s := AfterLine39(now);
    assert Known(s, 5, now) == s;
    assert OwnerSlotOk(s.threads, s.queues, Tq1);
    WaitOnOther(s, 5, Tq1);
    Line41Donation(now);
  }

  lemma Through41Consistent(now: int)
    ensures Consistent(AfterLine41(now))
  {
    Through39Consistent(now);
    var s := AfterLine39(now);
    assert Known(s, 5, now) == s;
    assert OwnerSlotOk(s.threads, s.queues, Tq1);
    WaitForAccessConsistent(s, 5, Tq1);
    Line41(now);
  }

  /** Releasing a transferring queue's owner, written out. */
  lemma ReleaseShape(s: State, q: QueueId)
    requires Consistent(s) && OwnerSlotOk(s.threads, s.queues, q)
    requires s.queues[q].owner.Some? && s.queues[q].transferPriority
    ensures var Q := s.queues[q];
      var o := Q.owner.value;
      ReleaseOwnerSlot(s, q)
        == State(s.threads[o := s.threads[o].(slots := RemoveAt(s.threads[o].slots, Q.ownerIndex))],
                 s.queues[q := Q.(ownerIndex := -1)])
  {
  }

  /** Polling, written out: the BestWaiter index leaves the waiters, then that waiter acquires q. */
  lemma PollAt(s: State, q: QueueId, k: nat, r: State)
    requires q in s.queues && |s.queues[q].waiters| > 0
    requires Registered(s.threads, s.queues[q].waiters)
    requires BestWaiter(s.queues[q].waiters, s.threads) == k
    requires var ws := s.queues[q].waiters;
      && ws[k] in s.threads && |s.threads[ws[k]].slots| > 0
      && AcquireStep(s.(queues := s.queues[q := s.queues[q].(waiters := RemoveAt(ws, k))]), ws[k], q) == r
    ensures Poll(s, q) == Handoff(r, Some(s.queues[q].waiters[k]))
  {
  }

  lemma Line45Release(now: int)
    requires Consistent(AfterLine41(now))
    ensures OwnerSlotOk(AfterLine41(now).threads, AfterLine41(now).queues, Tq1)
    ensures ReleaseOwnerSlot(AfterLine41(now), Tq1) == Released45(now)
  {
    ReleaseShape(AfterLine41(now), Tq1);
    assert RemoveAt([1, 7], 1) == [1];
  }

  /** kt_5 (effective 7) goes before kt_1 (effective 6), and acquires tq1 with a slot of 7. */
  lemma Line45Choice(now: int)
    ensures Registered(Released45(now).threads, [1, 5])
    ensures BestWaiter([1, 5], Released45(now).threads) == 1
    ensures AcquireStep(Released45(now).(queues := Released45(now).queues[Tq1 := QueueState(true, [1], Some(2), -1)]), 5, Tq1)
         == AfterLine45(now)
  {
    var th := Released45(now).threads;
    assert MaxOf([7]) == 7 && MaxOf([6]) == 6;
    assert Before(th[5], th[1]);
    assert RemoveFirst([Tq1], Tq1) == [];
    assert RemoveFirst([1], 5) == [1];
    assert [7] + [7] == [7, 7];
  }

  lemma Line45Poll(now: int)
    ensures |Released45(now).queues[Tq1].waiters| > 0
    ensures Poll(Released45(now), Tq1) == Handoff(AfterLine45(now), Some(5))
  {
    var s1 := Released45(now);
    Line45Choice(now);
    assert RemoveAt([1, 5], 1) == [1];
    assert s1.queues[Tq1].(waiters := RemoveAt([1, 5], 1)) == QueueState(true, [1], Some(2), -1);
    PollAt(s1, Tq1, 1, AfterLine45(now));
  }

  lemma Line45(now: int)
    requires Consistent(AfterLine41(now))
    ensures OwnerSlotOk(AfterLine41(now).threads, AfterLine41(now).queues, Tq1)
    ensures NextThreadStep(AfterLine41(now), Tq1) == Handoff(AfterLine45(now), Some(5))
  {
    Line45Release(now);
    Line45Poll(now);
  }

  /**
   * The effective priorities the test reads: kt_2, the owner of tq1,
   * receives 6 at line 32, but kt_4 stays at 1 at lines 34-35, where 6 is
   * expected, so the test stops at line 35. In the replay that skips that
   * assertion, kt_2 receives 7 at line 41 and kt_4 stays at 1 at lines
   * 42-43, where 7 is expected; after line 45 kt_2 is back to 1 and kt_4 is
   * at 1, the value line 47 expects.
   */
  lemma EffectivePriorities(now: int)
    ensures EffectivePriority(AfterLine32(now).threads[2]) == 6
    ensures EffectivePriority(Known(AfterLine32(now), 4, now).threads[4]) == 1
    ensures EffectivePriority(AfterLine41(now).threads[2]) == 7
    ensures EffectivePriority(Known(AfterLine41(now), 4, now).threads[4]) == 1
    ensures EffectivePriority(AfterLine45(now).threads[2]) == 1
    ensures EffectivePriority(Known(AfterLine45(now), 4, now).threads[4]) == 1
  {
    assert MaxOf([1, 6]) == 6 by { assert MaxOf([6]) == 6; }
    assert MaxOf([1, 7]) == 7 by { assert MaxOf([7]) == 7; }
    assert MaxOf([1, 1]) == 1 by { assert MaxOf([1]) == 1; }
    assert MaxOf([1]) == 1;
  }

  /**
   * The test as a whole: the states above are the ones the steps reach, the
   * invariant holds in each, and the nextThread of line 45 hands tq1 to kt_5.
   */
  lemma TestPriorityScheduler(now: int)
    ensures Consistent(AfterLine41(now)) && OwnerSlotOk(AfterLine41(now).threads, AfterLine41(now).queues, Tq1)
    ensures NextThreadStep(AfterLine41(now), Tq1) == Handoff(AfterLine45(now), Some(5))
  {
    Through41Consistent(now);
    Line45(now);
  }

  /**
   * A state reached by: kt_2 acquires tq1, kt_1 waits on tq1, kt_1 acquires
   * tq2, kt_3 with priority 5 waits on tq2. kt_1 holds 5 in its slot for
   * tq2, which did not travel on to kt_2.
   */
  function StaleOwner(now: int): State {
    State(map[1 := ThreadState(1, [1, 5], now, [Tq1]), 2 := ThreadState(1, [1, 1], now, []),
              3 := ThreadState(5, [5], now, [Tq2])],
          map[Tq1 := QueueState(true, [1], Some(2), 1), Tq2 := QueueState(true, [3], Some(1), 1)])
  }

  lemma StaleOwnerConsistent(now: int)
    ensures Consistent(StaleOwner(now)) && SetPriorityDefined(StaleOwner(now), 1)
  {
    var s := StaleOwner(now);
    assert OwnerSlotOk(s.threads, s.queues, Tq1);
  }

  /**
   * setPriority with the priority a thread already has is not a no-op: it
   * donates the thread's current effective priority again, here lifting
   * kt_2 from 1 to 5.
   */
  lemma SamePriorityStillDonates(now: int)
    ensures DonationTargetsOk(StaleOwner(now).threads, StaleOwner(now).queues, [Tq1])
    ensures StaleOwner(now).threads[1].priority == 1
    ensures EffectivePriority(StaleOwner(now).threads[2]) == 1
    ensures EffectivePriority(SetPriorityStep(StaleOwner(now), 1, 1).threads[2]) == 5
  {
    var s := StaleOwner(now);
    assert OwnerSlotOk(s.threads, s.queues, Tq1);
    var ts := Rebase(s.threads[1], 1);
    assert ts == s.threads[1];
    assert s.threads[1 := ts] == s.threads;
    assert SetPriorityStep(s, 1, 1).threads == Donate(s.threads, s.queues, [Tq1], EffectivePriority(ts));
    assert MaxOf([1, 5]) == 5 by { assert MaxOf([5]) == 5; }
    assert MaxOf([1, 1]) == 1 by { assert MaxOf([1]) == 1; }
    assert [Tq1][..0] == [];
    assert RaiseSlot([1, 1], 1, 5) == [1, 5];
    assert Donate(s.threads, s.queues, [Tq1], 5)[2].slots == [1, 5];
  }
}
