/**
 * What the operations of the priority scheduler guarantee, and what they do
 * not: the invariant they keep, the effect of each on owners, waiters and
 * slots, and the one-hop reach of donation.
 */
module PriorityProperties {
  import opened Common
  import opened Lists
  import opened PriorityModel

  // ---------------------------------------------------------------------
  // waitForAccess
  // ---------------------------------------------------------------------

  /** Donating a valid priority through a consistent queue keeps the invariant. */
  lemma DonateToConsistent(s: State, q: QueueId, e: int)
    requires Consistent(s) && OwnerSlotOk(s.threads, s.queues, q) && InRange(e)
    ensures Consistent(s.(threads := DonateTo(s.threads, s.queues, q, e)))
  {
    var r := s.(threads := DonateTo(s.threads, s.queues, q, e));
    assert Donate(s.threads, s.queues, [q], e) == DonateTo(s.threads, s.queues, q, e) by {
      assert [q][..0] == [];
    }
    DonateWellFormed(s.threads, s.queues, [q], e);
    forall q' | q' in r.queues ensures QueueOk(r.queues[q'], r.threads) {
      assert QueueOk(s.queues[q'], s.threads);
    }
    forall u, i | u in r.threads && 0 <= i < |r.threads[u].waitingQueues|
      ensures r.threads[u].waitingQueues[i] in r.queues
      ensures r.queues[r.threads[u].waitingQueues[i]].owner != Some(u)
    {
      assert r.threads[u].waitingQueues[i] == s.threads[u].waitingQueues[i];
    }
  }

  /** waitForAccess keeps the invariant. */
  lemma WaitForAccessConsistent(s: State, t: ThreadId, q: QueueId)
    requires Consistent(s) && t in s.threads && OwnerSlotOk(s.threads, s.queues, q)
    ensures Consistent(WaitForAccessStep(s, t, q))
  {
    var s1 := GiveUpOwnQueue(s, t, q);
    EnqueueConsistent(s1, t, q);
    var s2 := Enqueue(s1, t, q);
    assert WellFormed(s2.threads[t]);
    EffectiveAtLeastBase(s2.threads[t]);
    DonateToConsistent(s2, q, EffectivePriority(s2.threads[t]));
  }

  /**
   * waitForAccess(t) on q: t is appended to q's waiters, q is added to the
   * queues t waits on unless already there, q is left without owner if t
   * owned it (and keeps its owner and index otherwise), t keeps its base and
   * stamp, and no other queue changes.
   */
  lemma WaitForAccessEnqueues(s: State, t: ThreadId, q: QueueId)
    requires Consistent(s) && t in s.threads && OwnerSlotOk(s.threads, s.queues, q)
    ensures var r := WaitForAccessStep(s, t, q);
      && r.queues.Keys == s.queues.Keys
      && r.queues[q].waiters == s.queues[q].waiters + [t]
      && r.queues[q].transferPriority == s.queues[q].transferPriority
      && r.queues[q].owner == (if s.queues[q].owner == Some(t) then None else s.queues[q].owner)
      && (s.queues[q].owner != Some(t) ==> r.queues[q].ownerIndex == s.queues[q].ownerIndex)
      && r.threads[t].waitingQueues == AddIfAbsent(s.threads[t].waitingQueues, q)
      && q in r.threads[t].waitingQueues
      && r.threads[t].priority == s.threads[t].priority
      && r.threads[t].initTime == s.threads[t].initTime
      && (forall q' :: q' in s.queues && q' != q ==> r.queues[q'] == s.queues[q'])
  {
  }

  /** An owner that waits on its own queue first gives it up, and with it its slot for q. */
  lemma WaitForAccessReleasesOwnSlot(s: State, t: ThreadId, q: QueueId)
    requires Consistent(s) && t in s.threads && OwnerSlotOk(s.threads, s.queues, q)
    requires s.queues[q].owner == Some(t)
    ensures var r := WaitForAccessStep(s, t, q);
      && r.queues[q].owner == None
      && r.queues[q].ownerIndex == -1
      && r.threads[t].slots == (if s.queues[q].transferPriority
                                then RemoveAt(s.threads[t].slots, s.queues[q].ownerIndex)
                                else s.threads[t].slots)
      && (forall u :: u in s.threads && u != t ==> r.threads[u] == s.threads[u])
  {
  }

  /**
   * When another thread owns a transferring q, its slot for q becomes the
   * larger of its old value and t's effective priority, nothing else of it
   * changes, and its effective priority becomes the larger of the two; no
   * third thread changes.
   */
  lemma WaitForAccessDonates(s: State, t: ThreadId, q: QueueId)
    requires Consistent(s) && t in s.threads && OwnerSlotOk(s.threads, s.queues, q)
    requires s.queues[q].transferPriority && s.queues[q].owner.Some? && s.queues[q].owner != Some(t)
    ensures var r := WaitForAccessStep(s, t, q);
      var o, k, e := s.queues[q].owner.value, s.queues[q].ownerIndex, EffectivePriority(s.threads[t]);
      && r.threads[t].slots == s.threads[t].slots
      && r.threads[o] == s.threads[o].(slots := s.threads[o].slots[k := if s.threads[o].slots[k] < e then e else s.threads[o].slots[k]])
      && EffectivePriority(r.threads[o]) == (if EffectivePriority(s.threads[o]) < e then e else EffectivePriority(s.threads[o]))
      && (forall u :: u in s.threads && u != t && u != o ==> r.threads[u] == s.threads[u])
  {
    var o, k := s.queues[q].owner.value, s.queues[q].ownerIndex;
    RaiseSlotEffective(s.threads[o].slots, k, EffectivePriority(s.threads[t]));
  }

  /** On a queue that does not transfer, waitForAccess changes no other thread at all. */
  lemma WaitForAccessNoTransferNoDonation(s: State, t: ThreadId, q: QueueId)
    requires Consistent(s) && t in s.threads && OwnerSlotOk(s.threads, s.queues, q)
    requires !s.queues[q].transferPriority
    ensures var r := WaitForAccessStep(s, t, q);
      && r.threads[t].slots == s.threads[t].slots
      && forall u :: u in s.threads && u != t ==> r.threads[u] == s.threads[u]
  {
  }

  // ---------------------------------------------------------------------
  // acquire
  // ---------------------------------------------------------------------

  /** acquire keeps the invariant. */
  lemma AcquireConsistent(s: State, t: ThreadId, q: QueueId)
    requires Consistent(s) && t in s.threads && q in s.queues
    ensures Consistent(AcquireStep(s, t, q))
  {
    AcquireKeepsWellFormed(s, t, q);
    AcquireKeepsWaitsOk(s, t, q);
    AcquireKeepsQueuesOk(s, t, q);
  }

  lemma AcquireKeepsWellFormed(s: State, t: ThreadId, q: QueueId)
    requires AllWellFormed(s.threads) && t in s.threads && q in s.queues
    ensures AllWellFormed(AcquireStep(s, t, q).threads)
  {
    assert WellFormed(s.threads[t]);
    AcquiredRecordWellFormed(s.threads[t], q);
    var r := AcquireStep(s, t, q);
    forall u | u in r.threads ensures WellFormed(r.threads[u]) {
      if u != t { assert r.threads[u] == s.threads[u]; }
    }
  }

  lemma AcquireKeepsQueuesOk(s: State, t: ThreadId, q: QueueId)
    requires QueuesOk(s.threads, s.queues) && t in s.threads && |s.threads[t].slots| > 0 && q in s.queues
    ensures QueuesOk(AcquireStep(s, t, q).threads, AcquireStep(s, t, q).queues)
  {
    var r := AcquireStep(s, t, q);
    assert QueueOk(s.queues[q], s.threads);
    forall q' | q' in r.queues ensures QueueOk(r.queues[q'], r.threads) {
      if q' != q { assert QueueOk(s.queues[q'], s.threads); }
    }
  }

  lemma AcquireKeepsWaitsOk(s: State, t: ThreadId, q: QueueId)
    requires AllWellFormed(s.threads) && WaitsOk(s.threads, s.queues)
    requires t in s.threads && q in s.queues
    ensures WaitsOk(AcquireStep(s, t, q).threads, AcquireStep(s, t, q).queues)
  {
    var r := AcquireStep(s, t, q);
    var ts := s.threads[t];
    assert WellFormed(ts);
    RemoveFirstFromSet(ts.waitingQueues, q);
    forall u, i | u in r.threads && 0 <= i < |r.threads[u].waitingQueues|
      ensures r.threads[u].waitingQueues[i] in r.queues
      ensures r.queues[r.threads[u].waitingQueues[i]].owner != Some(u)
    {
      var w := r.threads[u].waitingQueues[i];
      if u == t {
        assert w in ts.waitingQueues && w != q;
        var j :| 0 <= j < |ts.waitingQueues| && ts.waitingQueues[j] == w;
      } else {
        assert w == s.threads[u].waitingQueues[i];
      }
    }
  }

  /**
   * After acquire(t) on q: t owns q, one occurrence of t has left the
   * waiters, the first occurrence of q has left the queues t waits on (so q
   * is no longer among them), q keeps its transfer flag, t its base and
   * stamp, and every other thread, the previous owner included, is untouched
   * (its slot for q stays).
   */
  lemma AcquireGrants(s: State, t: ThreadId, q: QueueId)
    requires t in s.threads && WellFormed(s.threads[t]) && q in s.queues
    ensures var r := AcquireStep(s, t, q);
      && r.queues[q].owner == Some(t)
      && multiset(r.queues[q].waiters) == multiset(s.queues[q].waiters) - multiset{t}
      && r.queues[q].transferPriority == s.queues[q].transferPriority
      && r.threads[t].waitingQueues == RemoveFirst(s.threads[t].waitingQueues, q)
      && q !in r.threads[t].waitingQueues
      && r.threads[t].priority == s.threads[t].priority
      && r.threads[t].initTime == s.threads[t].initTime
      && (forall u :: u in s.threads && u != t ==> r.threads[u] == s.threads[u])
      && (forall q' :: q' in s.queues && q' != q ==> r.queues[q'] == s.queues[q'])
  {
    AcquireFrame(s, t, q);
    AcquireTakesQueue(s, t, q);
    AcquireLeavesWait(s, t, q);
  }

  /** acquire's effect on q: t owns it, one copy of t leaves the waiters, the flag stays. */
  lemma AcquireTakesQueue(s: State, t: ThreadId, q: QueueId)
    requires t in s.threads && |s.threads[t].slots| > 0 && q in s.queues
    ensures var r := AcquireStep(s, t, q);
      && r.queues[q] == s.queues[q].(waiters := RemoveFirst(s.queues[q].waiters, t), owner := Some(t), ownerIndex := r.queues[q].ownerIndex)
  {
  }

  /** acquire's effect on t's record other than its slots: q leaves the queues t waits on. */
  lemma AcquireLeavesWait(s: State, t: ThreadId, q: QueueId)
    requires t in s.threads && WellFormed(s.threads[t]) && q in s.queues
    ensures var r := AcquireStep(s, t, q);
      && r.threads[t].waitingQueues == RemoveFirst(s.threads[t].waitingQueues, q)
      && q !in r.threads[t].waitingQueues
      && r.threads[t].priority == s.threads[t].priority
      && r.threads[t].initTime == s.threads[t].initTime
  {
    RemoveFirstFromSet(s.threads[t].waitingQueues, q);
  }

  /** acquire(t) on q touches only t and q. */
  lemma AcquireFrame(s: State, t: ThreadId, q: QueueId)
    requires t in s.threads && |s.threads[t].slots| > 0 && q in s.queues
    ensures var r := AcquireStep(s, t, q);
      && (forall u :: u in s.threads && u != t ==> r.threads[u] == s.threads[u])
      && (forall q' :: q' in s.queues && q' != q ==> r.queues[q'] == s.queues[q'])
  {
  }

  /**
   * acquire leaves t's effective priority as it was; a transferring q gives t
   * one more slot after its old ones, holding that effective priority, which
   * q's index points at.
   */
  lemma AcquireSlot(s: State, t: ThreadId, q: QueueId)
    requires Consistent(s) && t in s.threads && q in s.queues
    ensures var r := AcquireStep(s, t, q);
      && EffectivePriority(r.threads[t]) == EffectivePriority(s.threads[t])
      && (s.queues[q].transferPriority ==>
            && |r.threads[t].slots| == |s.threads[t].slots| + 1
            && r.threads[t].slots[..|s.threads[t].slots|] == s.threads[t].slots
            && r.queues[q].ownerIndex == |r.threads[t].slots| - 1
            && r.threads[t].slots[r.queues[q].ownerIndex] == EffectivePriority(s.threads[t]))
      && (!s.queues[q].transferPriority ==> r.threads[t].slots == s.threads[t].slots)
  {
    MaxOfAppendMax(s.threads[t].slots);
  }

  /** A thread listed at most once among the waiters is not a waiter after acquiring. */
  lemma AcquireLeavesNoWaiterCopy(s: State, t: ThreadId, q: QueueId)
    requires Consistent(s) && t in s.threads && q in s.queues
    requires multiset(s.queues[q].waiters)[t] <= 1
    ensures t !in AcquireStep(s, t, q).queues[q].waiters
  {
    assert WellFormed(s.threads[t]);
    AcquireGrants(s, t, q);
    var r := AcquireStep(s, t, q);
    assert multiset(r.queues[q].waiters)[t] == 0;
  }

  // ---------------------------------------------------------------------
  // nextThread
  // ---------------------------------------------------------------------

  /**
   * Releasing the outgoing owner of a transferring q removes its slot for q,
   * and nothing else of it, and leaves q with the same owner and index -1;
   * no other thread or queue changes. Otherwise nothing changes.
   */
  lemma ReleaseOwnerSlotEffect(s: State, q: QueueId)
    requires Consistent(s) && OwnerSlotOk(s.threads, s.queues, q)
    ensures var r := ReleaseOwnerSlot(s, q);
      var Q := s.queues[q];
      && (Q.owner.Some? && Q.transferPriority ==>
            var o := Q.owner.value;
            && r.queues[q] == Q.(ownerIndex := -1)
            && r.threads[o] == s.threads[o].(slots := RemoveAt(s.threads[o].slots, Q.ownerIndex))
            && (forall u :: u in s.threads && u != o ==> r.threads[u] == s.threads[u])
            && (forall q' :: q' in s.queues && q' != q ==> r.queues[q'] == s.queues[q']))
      && (!(Q.owner.Some? && Q.transferPriority) ==> r == s)
  {
  }

  /** Polling the chosen waiter keeps the invariant. */
  lemma PollConsistent(s: State, q: QueueId, k: nat)
    requires Consistent(s) && q in s.queues && k < |s.queues[q].waiters|
    ensures Consistent(s.(queues := s.queues[q := s.queues[q].(waiters := RemoveAt(s.queues[q].waiters, k))]))
  {
    var r := s.(queues := s.queues[q := s.queues[q].(waiters := RemoveAt(s.queues[q].waiters, k))]);
    forall q' | q' in r.queues ensures QueueOk(r.queues[q'], r.threads) {
      assert QueueOk(s.queues[q'], s.threads);
      if q' == q {
        var ws := s.queues[q].waiters;
        forall i | 0 <= i < |ws| - 1 ensures RemoveAt(ws, k)[i] in r.threads {
          if i < k { assert RemoveAt(ws, k)[i] == ws[i]; } else { assert RemoveAt(ws, k)[i] == ws[i + 1]; }
        }
      }
    }
  }

  /** Polling a waiter and handing it q keeps the invariant and the set of queues. */
  lemma PollKeepsInvariant(s: State, q: QueueId)
    requires Consistent(s) && q in s.queues && |s.queues[q].waiters| > 0
    ensures Consistent(Poll(s, q).state) && Poll(s, q).state.queues.Keys == s.queues.Keys
  {
    var ws := s.queues[q].waiters;
    ConsistentRegistered(s, q);
    var k := BestWaiter(ws, s.threads);
    PollConsistent(s, q, k);
    var s2 := s.(queues := s.queues[q := s.queues[q].(waiters := RemoveAt(ws, k))]);
    AcquireConsistent(s2, ws[k], q);
  }

  /** nextThread keeps the invariant and the set of queues. */
  lemma NextThreadConsistent(s: State, q: QueueId)
    requires Consistent(s) && OwnerSlotOk(s.threads, s.queues, q)
    ensures Consistent(NextThreadStep(s, q).state)
    ensures NextThreadStep(s, q).state.queues.Keys == s.queues.Keys
  {
    var s1 := ReleaseOwnerSlot(s, q);
    if |s1.queues[q].waiters| > 0 {
      PollKeepsInvariant(s1, q);
    }
  }

  /** nextThread returns null exactly when nobody waits; then q keeps its owner. */
  lemma NextThreadNullIffEmpty(s: State, q: QueueId)
    requires Consistent(s) && OwnerSlotOk(s.threads, s.queues, q)
    ensures var r := NextThreadStep(s, q);
      && (r.chosen.None? <==> |s.queues[q].waiters| == 0)
      && (r.chosen.None? ==> r.state == ReleaseOwnerSlot(s, q) && r.state.queues[q].owner == s.queues[q].owner)
  {
  }

  /**
   * Otherwise nextThread returns a waiter that no other waiter goes before,
   * judged after the outgoing owner's slot is gone; the first such waiter in
   * the list on a full tie. That waiter owns q afterwards, and two copies of
   * it leave the waiters when there are two (poll, then acquire's remove).
   */
  lemma NextThreadChoosesBest(s: State, q: QueueId)
    requires Consistent(s) && OwnerSlotOk(s.threads, s.queues, q)
    requires |s.queues[q].waiters| > 0
    ensures var r := NextThreadStep(s, q);
      var s1 := ReleaseOwnerSlot(s, q);
      var ws := s.queues[q].waiters;
      && r.chosen.Some?
      && r.chosen.value in ws
      && (forall j :: 0 <= j < |ws| ==> !Before(s1.threads[ws[j]], s1.threads[r.chosen.value]))
      && r.state.queues[q].owner == r.chosen
      && multiset(r.state.queues[q].waiters) == multiset(ws) - multiset{r.chosen.value} - multiset{r.chosen.value}
  {
    var s1 := ReleaseOwnerSlot(s, q);
    var ws := s1.queues[q].waiters;
    ConsistentRegistered(s1, q);
    var k := BestWaiter(ws, s1.threads);
    var s2 := s1.(queues := s1.queues[q := s1.queues[q].(waiters := RemoveAt(ws, k))]);
    PollConsistent(s1, q, k);
    assert WellFormed(s2.threads[ws[k]]);
    AcquireGrants(s2, ws[k], q);
  }

  /**
   * nextThread touches only q, the outgoing owner and the thread it returns:
   * every other queue and every other thread is left as it was.
   */
  lemma NextThreadFrame(s: State, q: QueueId)
    requires Consistent(s) && OwnerSlotOk(s.threads, s.queues, q)
    ensures var r := NextThreadStep(s, q);
      && (forall q' :: q' in s.queues && q' != q ==> r.state.queues[q'] == s.queues[q'])
      && (forall u :: u in s.threads && Some(u) != s.queues[q].owner && Some(u) != r.chosen ==>
            r.state.threads[u] == s.threads[u])
  {
    ReleaseOwnerSlotEffect(s, q);
    var s1 := ReleaseOwnerSlot(s, q);
    var ws := s1.queues[q].waiters;
    if |ws| > 0 {
      ConsistentRegistered(s1, q);
      PollFrame(s1, q);
    }
  }

  /** Poll touches only q and the thread it returns. */
  lemma PollFrame(s: State, q: QueueId)
    requires q in s.queues && |s.queues[q].waiters| > 0 && Registered(s.threads, s.queues[q].waiters)
    ensures var r := Poll(s, q);
      && (forall q' :: q' in s.queues && q' != q ==> r.state.queues[q'] == s.queues[q'])
      && (forall u :: u in s.threads && Some(u) != r.chosen ==> r.state.threads[u] == s.threads[u])
  {
    var ws := s.queues[q].waiters;
    var k := BestWaiter(ws, s.threads);
    var s2 := s.(queues := s.queues[q := s.queues[q].(waiters := RemoveAt(ws, k))]);
    AcquireFrame(s2, ws[k], q);
    var r := Poll(s, q);
    assert r.state == AcquireStep(s2, ws[k], q) && r.chosen == Some(ws[k]);
    forall q' | q' in s.queues && q' != q ensures r.state.queues[q'] == s.queues[q'] {
      assert s2.queues[q'] == s.queues[q'];
    }
  }

  // ---------------------------------------------------------------------
  // setPriority
  // ---------------------------------------------------------------------

  /** t owns none of the queues it waits on, so donation never feeds back into t. */
  lemma NotOwnerOfWaitedQueues(s: State, t: ThreadId)
    requires Consistent(s) && t in s.threads
    ensures !OwnsTransferring(s.queues, s.threads[t].waitingQueues, t)
  {
    var ws := s.threads[t].waitingQueues;
    forall i | 0 <= i < |ws| ensures !(ws[i] in s.queues && s.queues[ws[i]].transferPriority && s.queues[ws[i]].owner == Some(t)) {
      assert s.queues[ws[i]].owner != Some(t);
    }
  }

  /** In a consistent state every queue a thread waits on has a usable owner slot, or the call would throw. */
  ghost predicate SetPriorityDefined(s: State, t: ThreadId) {
    t in s.threads && DonationTargetsOk(s.threads, s.queues, s.threads[t].waitingQueues)
  }

  /** setPriority keeps the invariant. */
  lemma SetPriorityConsistent(s: State, t: ThreadId, p: int)
    requires Consistent(s) && SetPriorityDefined(s, t) && InRange(p)
    ensures Consistent(SetPriorityStep(s, t, p))
  {
    var ts := Rebase(s.threads[t], p);
    var th := s.threads[t := ts];
    RebaseWellFormed(s.threads[t], p);
    EffectiveAtLeastBase(ts);
    var ws := ts.waitingQueues;
    assert DonationTargetsOk(th, s.queues, ws) by {
      forall i | 0 <= i < |ws| ensures OwnerSlotOk(th, s.queues, ws[i]) {
        assert OwnerSlotOk(s.threads, s.queues, ws[i]);
      }
    }
    forall i | 0 <= i < |ws| ensures QueueOk(s.queues[ws[i]], th) {
      assert ws[i] == s.threads[t].waitingQueues[i];
      assert QueueOk(s.queues[ws[i]], s.threads);
    }
    DonateWellFormed(th, s.queues, ws, EffectivePriority(ts));
    var r := SetPriorityStep(s, t, p);
    forall q' | q' in r.queues ensures QueueOk(r.queues[q'], r.threads) {
      assert QueueOk(s.queues[q'], s.threads);
    }
    forall u, i | u in r.threads && 0 <= i < |r.threads[u].waitingQueues|
      ensures r.threads[u].waitingQueues[i] in r.queues
      ensures r.queues[r.threads[u].waitingQueues[i]].owner != Some(u)
    {
      assert r.threads[u].waitingQueues[i] == s.threads[u].waitingQueues[i];
    }
  }

  /** setPriority(t, p) makes p the base priority and slot 0 of t; t's other slots stay. */
  lemma SetPriorityRebases(s: State, t: ThreadId, p: int)
    requires Consistent(s) && SetPriorityDefined(s, t)
    ensures SetPriorityStep(s, t, p).threads[t] == Rebase(s.threads[t], p)
    ensures SetPriorityStep(s, t, p).threads[t].priority == p
  {
    var ts := Rebase(s.threads[t], p);
    var th := s.threads[t := ts];
    NotOwnerOfWaitedQueues(s, t);
    assert DonationTargetsOk(th, s.queues, ts.waitingQueues) by {
      forall i | 0 <= i < |ts.waitingQueues| ensures OwnerSlotOk(th, s.queues, ts.waitingQueues[i]) {
        assert OwnerSlotOk(s.threads, s.queues, ts.waitingQueues[i]);
      }
    }
    DonateOneHop(th, s.queues, ts.waitingQueues, EffectivePriority(ts), t);
  }

  /**
   * The exact effect on every other thread: slot j of u != t ends as the
   * larger of its old value and t's new effective priority when u owns a
   * transferring queue t waits on and keeps slot j for it, and as it was
   * otherwise.
   */
  lemma SetPriorityExact(s: State, t: ThreadId, p: int, u: ThreadId, j: int)
    requires Consistent(s) && SetPriorityDefined(s, t)
    requires u in s.threads && u != t && 0 <= j < |s.threads[u].slots|
    ensures var r := SetPriorityStep(s, t, p);
      var e, v := EffectivePriority(r.threads[t]), s.threads[u].slots[j];
      r.threads[u].slots[j] == if DonatesInto(s.queues, s.threads[t].waitingQueues, u, j) && v < e then e else v
  {
    SetPriorityRebases(s, t, p);
    var ts := Rebase(s.threads[t], p);
    var th := s.threads[t := ts];
    assert DonationTargetsOk(th, s.queues, ts.waitingQueues) by {
      forall i | 0 <= i < |ts.waitingQueues| ensures OwnerSlotOk(th, s.queues, ts.waitingQueues[i]) {
        assert OwnerSlotOk(s.threads, s.queues, ts.waitingQueues[i]);
      }
    }
    DonateExact(th, s.queues, ts.waitingQueues, EffectivePriority(ts), u, j);
  }

  /**
   * Donation goes one hop: a thread other than t that owns none of the
   * transferring queues t waits on is left exactly as it was, even if it owns
   * a queue that such an owner waits on.
   */
  lemma SetPriorityOneHop(s: State, t: ThreadId, p: int, u: ThreadId)
    requires Consistent(s) && SetPriorityDefined(s, t)
    requires u in s.threads && u != t && !OwnsTransferring(s.queues, s.threads[t].waitingQueues, u)
    ensures SetPriorityStep(s, t, p).threads[u] == s.threads[u]
  {
    var ts := Rebase(s.threads[t], p);
    var th := s.threads[t := ts];
    assert DonationTargetsOk(th, s.queues, ts.waitingQueues) by {
      forall j | 0 <= j < |ts.waitingQueues| ensures OwnerSlotOk(th, s.queues, ts.waitingQueues[j]) {
        assert OwnerSlotOk(s.threads, s.queues, ts.waitingQueues[j]);
      }
    }
    DonateOneHop(th, s.queues, ts.waitingQueues, EffectivePriority(ts), u);
  }

  /**
   * setPriority never lowers a slot of another thread: lowering a donor's
   * priority does not withdraw a donation it already made.
   */
  lemma SetPriorityNeverWithdraws(s: State, t: ThreadId, p: int)
    requires Consistent(s) && SetPriorityDefined(s, t)
    ensures var r := SetPriorityStep(s, t, p);
      forall u, j :: u in s.threads && u != t && 0 <= j < |s.threads[u].slots| ==>
        s.threads[u].slots[j] <= r.threads[u].slots[j]
  {
    var ts := Rebase(s.threads[t], p);
    var th := s.threads[t := ts];
    assert DonationTargetsOk(th, s.queues, ts.waitingQueues) by {
      forall j | 0 <= j < |ts.waitingQueues| ensures OwnerSlotOk(th, s.queues, ts.waitingQueues[j]) {
        assert OwnerSlotOk(s.threads, s.queues, ts.waitingQueues[j]);
      }
    }
    DonateNeverLowers(th, s.queues, ts.waitingQueues, EffectivePriority(ts));
  }
}
