/** The per-connection message throttle: a fixed one-second window with a
    counter (SimpleRateLimiter.java). */
module RateLimiter {

  /** The limiter's state: the epoch second its window belongs to and the
      number of calls counted in that window. */
  datatype Window = Window(epoch: int, count: int)

  /** The calls already counted in second `now`: none once the second has
      moved on. */
  function CountIn(w: Window, now: int): int {
    if w.epoch == now then w.count else 0
  }

  /** One `tryAcquire` at epoch second `now`: a different second restarts the
      window, every call is counted, rejected ones included, and the call is
      accepted exactly when the new count is within the limit. */
  function Acquire(w: Window, now: int, limit: int): (Window, bool) {
    var count := CountIn(w, now) + 1;
    (Window(now, count), count <= limit)
  }

  /** Calls at the epoch seconds `times`, in order: the final state and the
      answer of every call. */
  function Run(w: Window, times: seq<int>, limit: int): (r: (Window, seq<bool>))
    ensures |r.1| == |times|
    decreases |times|
  {
    if times == [] then (w, [])
    else
      var (w1, ok) := Acquire(w, times[0], limit);
      var (w2, oks) := Run(w1, times[1..], limit);
      (w2, [ok] + oks)
  }

  /** Within one second the i-th call (from 0) is accepted exactly when the
      calls counted before it in that second, plus i, plus itself, fit the
      limit; afterwards the window is that second and holds all the calls. */
  lemma {:induction false} SameSecond(w: Window, times: seq<int>, now: int, limit: int)
    requires forall i | 0 <= i < |times| :: times[i] == now
    ensures |times| > 0 ==> Run(w, times, limit).0 == Window(now, CountIn(w, now) + |times|)
    ensures forall i | 0 <= i < |times| ::
      Run(w, times, limit).1[i] == (CountIn(w, now) + i + 1 <= limit)
    decreases |times|
  {
    if times != [] {
      var (w1, ok) := Acquire(w, times[0], limit);
      assert CountIn(w1, now) == CountIn(w, now) + 1;
      SameSecond(w1, times[1..], now, limit);
      var oks := Run(w, times, limit).1;
      assert oks == [ok] + Run(w1, times[1..], limit).1;
      forall i | 1 <= i < |times|
        ensures oks[i] == (CountIn(w, now) + i + 1 <= limit)
      {
        assert oks[i] == Run(w1, times[1..], limit).1[i - 1];
      }
    }
  }

  /** With limit n, in a second that has seen no call yet, calls 1..n are
      accepted and every later call in that second is rejected. */
  lemma FreshSecondAcceptsExactlyLimit(w: Window, times: seq<int>, now: int, limit: int)
    requires w.epoch != now
    requires forall i | 0 <= i < |times| :: times[i] == now
    ensures forall i | 0 <= i < |times| :: Run(w, times, limit).1[i] == (i < limit)
  {
    SameSecond(w, times, now, limit);
  }

  /** A limit of 0 (or below) rejects every call, whatever the seconds,
      because a counted call makes the count at least 1. */
  lemma {:induction false} ZeroLimitRejectsAll(w: Window, times: seq<int>, limit: int)
    requires limit <= 0 && w.count >= 0
    ensures forall i | 0 <= i < |times| :: !Run(w, times, limit).1[i]
    decreases |times|
  {
    if times != [] {
      var (w1, ok) := Acquire(w, times[0], limit);
      ZeroLimitRejectsAll(w1, times[1..], limit);
      var oks := Run(w, times, limit).1;
      assert oks == [ok] + Run(w1, times[1..], limit).1;
      forall i | 1 <= i < |times| ensures !oks[i] {
        assert oks[i] == Run(w1, times[1..], limit).1[i - 1];
      }
    }
  }

  /** However many calls a second has rejected, the first call of a later
      second is accepted when the limit is at least 1. */
  lemma AcceptsAgainAfterRollover(w: Window, times: seq<int>, now: int, later: int, limit: int)
    requires |times| > 0 && forall i | 0 <= i < |times| :: times[i] == now
    requires later != now && limit >= 1
    ensures Run(w, times + [later], limit).1[|times|]
  {
    RunAppend(w, times, later, limit);
    SameSecond(w, times, now, limit);
  }

  /** Running a sequence and then one more call is the same as continuing
      from the state the sequence reached. */
  lemma {:induction false} RunAppend(w: Window, times: seq<int>, t: int, limit: int)
    ensures Run(w, times + [t], limit).1
         == Run(w, times, limit).1 + [Acquire(Run(w, times, limit).0, t, limit).1]
    decreases |times|
  {
    if times == [] {
      assert times + [t] == [t];
    } else {
      var (w1, ok) := Acquire(w, times[0], limit);
      assert (times + [t])[1..] == times[1..] + [t];
      RunAppend(w1, times[1..], t, limit);
    }
  }

  /** One limiter. The limit is fixed at construction; the window start and
      the counter change in place on every call. */
  class SimpleRateLimiter {
    const limitPerSecond: int
    var counter: int
    var windowEpoch: int

    ghost predicate Valid()
      reads this
    {
      counter >= 0
    }

    function State(): Window
      reads this
    {
      Window(windowEpoch, counter)
    }

    /** A new limiter: window at the current second, nothing counted. */
    constructor (limitPerSecond: int, nowSecond: int)
      ensures Valid()
      ensures this.limitPerSecond == limitPerSecond
      ensures State() == Window(nowSecond, 0)
    {
      this.limitPerSecond := limitPerSecond;
      counter := 0;
      windowEpoch := nowSecond;
    }

    /** `tryAcquire` at epoch second `nowSecond`. */
    method TryAcquire(nowSecond: int) returns (ok: bool)
      requires Valid()
      modifies this
      ensures Valid()
      ensures (State(), ok) == Acquire(old(State()), nowSecond, limitPerSecond)
      ensures windowEpoch == nowSecond && counter == CountIn(old(State()), nowSecond) + 1
      ensures ok <==> counter <= limitPerSecond
    {
      if nowSecond != windowEpoch {
        windowEpoch := nowSecond;
        counter := 0;
      }
      counter := counter + 1;
      ok := counter <= limitPerSecond;
    }
  }
}
