/**
 * The alarm's sleep list: waitUntil appends (thread, wake time) at the end,
 * and each timer interrupt looks at the head only, waking it and removing
 * it when its wake time has come. The clock reading is passed in as `now`;
 * making the thread ready, putting it to sleep and yielding are left to the
 * caller, which receives the woken thread.
 */
module AlarmClock {
  import opened Common

  // ---------------------------------------------------------------------
  // Java long arithmetic
  // ---------------------------------------------------------------------

  const LongMin: int := -0x8000_0000_0000_0000
  const LongMax: int := 0x7FFF_FFFF_FFFF_FFFF
  const LongModulus: int := 0x1_0000_0000_0000_0000

  predicate IsLong(x: int) {
    LongMin <= x <= LongMax
  }

  /** Two's complement wrap-around of a mathematical integer into a long. */
  function WrapLong(x: int): (r: int)
    ensures IsLong(r) && (r - x) % LongModulus == 0
    ensures IsLong(x) ==> r == x
  {
    (x - LongMin) % LongModulus + LongMin
  }

  /** a + b on longs: exact when it fits, otherwise off by exactly 2^64. */
  function AddLong(a: int, b: int): (r: int)
    requires IsLong(a) && IsLong(b)
    ensures IsLong(r)
    ensures IsLong(a + b) ==> r == a + b
    ensures a + b > LongMax ==> r == a + b - LongModulus
    ensures a + b < LongMin ==> r == a + b + LongModulus
  {
    WrapLong(a + b)
  }

  // ---------------------------------------------------------------------
  // The list and one timer tick
  // ---------------------------------------------------------------------

  /** Tupla: a sleeping thread (null allowed by the type) and the time it may wake. */
  datatype Sleeper = Sleeper(thread: Option<ThreadId>, wakeTime: int)

  /** The list after a tick, and the thread that tick made ready, if any. */
  datatype Tick = Tick(rest: seq<Sleeper>, woken: Option<ThreadId>)

  /**
   * timerInterrupt, lines 39-48: only the head is looked at; it leaves the
   * list, and its thread (when not null) is made ready, if its wake time is
   * not after now.
   */
  function TimerTick(q: seq<Sleeper>, now: int): (r: Tick)
    ensures |q| - 1 <= |r.rest| <= |q| && r.rest == q[|q| - |r.rest|..]
    ensures |r.rest| < |q| <==> q != [] && q[0].wakeTime <= now
    ensures r.woken.Some? ==> |r.rest| < |q| && r.woken == q[0].thread
    ensures |r.rest| < |q| ==> r.woken == q[0].thread
  {
    if q != [] && q[0].wakeTime <= now then Tick(q[1..], q[0].thread)
    else Tick(q, None)
  }

  /** An entry appended behind others does not change what a tick does to them. */
  lemma AppendBehind(q: seq<Sleeper>, e: Sleeper, now: int)
    requires q != []
    ensures TimerTick(q + [e], now) == Tick(TimerTick(q, now).rest + [e], TimerTick(q, now).woken)
  {
    if q[0].wakeTime <= now {
      assert (q + [e])[1..] == q[1..] + [e];
    }
  }

  // ---------------------------------------------------------------------
  // A run of ticks
  // ---------------------------------------------------------------------

  /** The list left after ticks at the given times, and the entries removed, in removal order. */
  datatype Trace = Trace(rest: seq<Sleeper>, removed: seq<Sleeper>)

  function Run(q: seq<Sleeper>, times: seq<int>): Trace
    decreases |times|
  {
    if times == [] then Trace(q, [])
    else
      var t := TimerTick(q, times[0]);
      var tail := Run(t.rest, times[1..]);
      Trace(tail.rest, q[..|q| - |t.rest|] + tail.removed)
  }

  /** The entries leave from the front, in list order: FIFO, and nothing is lost or reordered. */
  lemma {:induction false} RunRemovesPrefix(q: seq<Sleeper>, times: seq<int>)
    ensures Run(q, times).removed + Run(q, times).rest == q
    decreases |times|
  {
    if times != [] {
      var t := TimerTick(q, times[0]);
      RunRemovesPrefix(t.rest, times[1..]);
      var tail := Run(t.rest, times[1..]);
      var d := |q| - |t.rest|;
      assert t.rest == q[d..];
      calc {
        Run(q, times).removed + Run(q, times).rest;
        (q[..d] + tail.removed) + tail.rest;
        q[..d] + (tail.removed + tail.rest);
        q[..d] + q[d..];
        q;
      }
    }
  }

  /** Each tick removes at most one entry. */
  lemma {:induction false} RunAtMostOnePerTick(q: seq<Sleeper>, times: seq<int>)
    ensures |Run(q, times).removed| <= |times|
    decreases |times|
  {
    if times != [] {
      RunAtMostOnePerTick(TimerTick(q, times[0]).rest, times[1..]);
    }
  }

  /** One more tick at the end of a run acts on the list the run left behind. */
  lemma {:induction false} RunSnoc(q: seq<Sleeper>, times: seq<int>, now: int)
    ensures Run(q, times + [now]).rest == TimerTick(Run(q, times).rest, now).rest
    decreases |times|
  {
    if times == [] {
      assert times + [now] == [now];
    } else {
      var t := TimerTick(q, times[0]);
      assert (times + [now])[0] == times[0];
      assert (times + [now])[1..] == times[1..] + [now];
      RunSnoc(t.rest, times[1..], now);
    }
  }

  /**
   * No entry is woken early: the tick at times[j] removes at most one entry,
   * behind those removed before it, and an entry it removes has a wake time
   * not after times[j].
   */
  lemma RunNeverEarly(q: seq<Sleeper>, times: seq<int>, j: nat)
    requires j < |times|
    ensures var before, after := Run(q, times[..j]).removed, Run(q, times[..j + 1]).removed;
      && |before| <= |after| <= |before| + 1
      && after[..|before|] == before
      && (|after| == |before| + 1 ==> after[|before|].wakeTime <= times[j])
  {
    var b, a := Run(q, times[..j]), Run(q, times[..j + 1]);
    assert times[..j + 1] == times[..j] + [times[j]];
    RunSnoc(q, times[..j], times[j]);
    RunRemovesPrefix(q, times[..j]);
    RunRemovesPrefix(q, times[..j + 1]);
    var n := |b.removed|;
    assert b.removed == q[..n] && b.rest == q[n..];
    assert a.removed == q[..|a.removed|];
    if |a.removed| == n + 1 {
      assert a.removed[n] == q[n] == b.rest[0];
    }
  }

  /** While the head's wake time has not come, nothing is removed, however many later entries are due. */
  lemma {:induction false} HeadBlocks(q: seq<Sleeper>, times: seq<int>)
    requires q != []
    requires forall j :: 0 <= j < |times| ==> times[j] < q[0].wakeTime
    ensures Run(q, times) == Trace(q, [])
    decreases |times|
  {
    if times != [] {
      HeadBlocks(q, times[1..]);
    }
  }

  /**
   * The promise of the waitUntil comment (wake during the first interrupt
   * at or after the wake time) is not kept: thread 2 is due at 10, the tick
   * at 50 comes, and thread 1, due at 100, ahead of it in the list, keeps it
   * asleep.
   */
  lemma DueThreadStaysAsleep()
    ensures var q := [Sleeper(Some(1), 100), Sleeper(Some(2), 10)];
      q[1].wakeTime <= 50 && TimerTick(q, 50) == Tick(q, None)
  {
  }

  /** A delay so large that now + x overflows gives a wake time in the past: the next tick wakes it. */
  lemma HugeDelayWakesAtOnce()
    ensures AddLong(10, LongMax) < 10
    ensures TimerTick([Sleeper(Some(1), AddLong(10, LongMax))], 10) == Tick([], Some(1))
  {
  }

  // ---------------------------------------------------------------------
  // The alarm object
  // ---------------------------------------------------------------------

  class Alarm {
    /** The sleep list, in call order. */
    var waitQueue: seq<Sleeper>

    constructor ()
      ensures waitQueue == []
    {
      waitQueue := [];
    }

    /**
     * waitUntil(x) called by `current` at time now: appends one entry with
     * wake time now + x (long arithmetic) after all earlier ones.
     */
    method WaitUntil(current: ThreadId, x: int, now: int)
      requires IsLong(x) && IsLong(now)
      modifies this
      ensures waitQueue == old(waitQueue) + [Sleeper(Some(current), AddLong(now, x))]
    {
      var wakeTime := AddLong(now, x);
      waitQueue := waitQueue + [Sleeper(Some(current), wakeTime)];
    }

    /** timerInterrupt at time now; returns the thread it makes ready. */
    method TimerInterrupt(now: int) returns (woken: Option<ThreadId>)
      modifies this
      ensures Tick(waitQueue, woken) == TimerTick(old(waitQueue), now)
    {
      woken := None;
      if |waitQueue| > 0 {
        var head := waitQueue[0];
        if head.wakeTime <= now {
          woken := head.thread;
          waitQueue := waitQueue[1..];
        }
      }
    }
  }
}
