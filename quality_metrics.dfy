/** The quality-metrics engine: three time-stamped FIFO queues over a
    five-minute sliding window, nearest-rank percentiles of the call setup
    time and the success ratio (QualityMetricsService.java). Times are epoch
    milliseconds passed in by the caller. */
module QualityMetrics {

  /** The window: five minutes in milliseconds. */
  const WINDOW_MS: int := 5 * 60000

  /** A successful call setup: when it was recorded and how long it took. */
  datatype Sample = Sample(ts: int, setupMs: int)

  /** An entry stamped `ts` is outside the window at time `now`. */
  predicate Stale(now: int, ts: int) {
    now - ts > WINDOW_MS
  }

  function SampleTs(s: Sample): int { s.ts }
  function Stamp(t: int): int { t }

  /** The eviction loop of `evictOld` on one queue: drop the head while it
      is stale. Only the head is ever inspected, so a stale entry behind a
      fresh head stays. */
  function Evict<T>(q: seq<T>, stamp: T -> int, now: int): (r: seq<T>)
    ensures |r| <= |q|
    decreases |q|
  {
    if q != [] && Stale(now, stamp(q[0])) then Evict(q[1..], stamp, now) else q
  }

  /** Eviction removes a prefix of stale entries and nothing else, and
      stops at the first entry still inside the window. */
  lemma {:induction false} EvictDropsStalePrefix<T>(q: seq<T>, stamp: T -> int, now: int)
    ensures var r := Evict(q, stamp, now);
      && r == q[|q| - |r|..]
      && (forall i | 0 <= i < |q| - |r| :: Stale(now, stamp(q[i])))
      && (r == [] || !Stale(now, stamp(r[0])))
    decreases |q|
  {
    if q != [] && Stale(now, stamp(q[0])) {
      EvictDropsStalePrefix(q[1..], stamp, now);
    }
  }

  /** A last entry stamped inside the window (at or after
      `now - WINDOW_MS`) is never evicted: eviction stops at or before it. */
  lemma EvictKeepsLast<T>(q: seq<T>, stamp: T -> int, now: int)
    requires q != [] && stamp(q[|q| - 1]) >= now - WINDOW_MS
    ensures var r := Evict(q, stamp, now);
      r != [] && r[|r| - 1] == q[|q| - 1]
  {
    EvictDropsStalePrefix(q, stamp, now);
    var r := Evict(q, stamp, now);
    assert !Stale(now, stamp(q[|q| - 1]));
    assert r != [];
    assert r[|r| - 1] == q[|q| - 1];
  }

  /** Timestamps recorded in order (the clock never goes back). */
  predicate InOrder<T>(q: seq<T>, stamp: T -> int) {
    forall i, j | 0 <= i < j < |q| :: stamp(q[i]) <= stamp(q[j])
  }

  /** On a queue recorded in order, eviction keeps exactly the entries still
      inside the window. */
  lemma EvictInOrderKeepsWindow<T>(q: seq<T>, stamp: T -> int, now: int)
    requires InOrder(q, stamp)
    ensures forall x | x in Evict(q, stamp, now) :: !Stale(now, stamp(x))
  {
    EvictDropsStalePrefix(q, stamp, now);
    var r := Evict(q, stamp, now);
    forall x | x in r ensures !Stale(now, stamp(x)) {
      var k :| 0 <= k < |r| && r[k] == x;
      assert r[k] == q[|q| - |r| + k] && r[0] == q[|q| - |r|];
    }
  }

  /** The number of entries still inside the window at `now` (the
      `filter(t -> now - t <= WINDOW_MS).count()` of `snapshot`). */
  function CountFresh(q: seq<int>, now: int): (n: nat)
    ensures n <= |q|
    decreases |q|
  {
    if q == [] then 0 else (if Stale(now, q[0]) then 0 else 1) + CountFresh(q[1..], now)
  }

  lemma {:induction false} CountFreshAll(q: seq<int>, now: int)
    requires forall i | 0 <= i < |q| :: !Stale(now, q[i])
    ensures CountFresh(q, now) == |q|
    decreases |q|
  {
    if q != [] {
      CountFreshAll(q[1..], now);
    }
  }

  predicate Sorted(s: seq<int>) {
    forall i, j | 0 <= i < j < |s| :: s[i] <= s[j]
  }

  function Insert(x: int, s: seq<int>): (r: seq<int>)
    requires Sorted(s)
    ensures Sorted(r) && multiset(r) == multiset(s) + multiset{x}
    decreases |s|
  {
    if s == [] || x <= s[0] then [x] + s
    else
      var t := Insert(x, s[1..]);
      assert s == [s[0]] + s[1..];
      HeadBelow(s[0], s[1..], x, t);
      [s[0]] + t
  }

  /** Putting the old head in front of the insertion into the tail keeps the
      list sorted. */
  lemma HeadBelow(a: int, tail: seq<int>, x: int, t: seq<int>)
    requires Sorted([a] + tail) && a < x
    requires Sorted(t) && multiset(t) == multiset(tail) + multiset{x}
    ensures Sorted([a] + t)
  {
    forall k | 0 <= k < |t| ensures a <= t[k] {
      assert t[k] in multiset(t);
      if t[k] != x {
        assert t[k] in multiset(tail) + multiset{x};
        assert t[k] in multiset(tail);
        assert t[k] in tail;
        var j :| 0 <= j < |tail| && tail[j] == t[k];
        var l := [a] + tail;
        assert l[0] == a && l[j + 1] == tail[j];
        assert l[0] <= l[j + 1];
      }
    }
  }

  /** The ascending sort of the `setupMs` stream (`sorted()`). */
  function SortAsc(s: seq<int>): (r: seq<int>)
    ensures Sorted(r) && multiset(r) == multiset(s) && |r| == |s|
    decreases |s|
  {
    if s == [] then []
    else
      assert s == [s[0]] + s[1..];
      Insert(s[0], SortAsc(s[1..]))
  }

  /** `ceil(q * n / 100) - 1` for a percentage `q`, clamped to a valid index. */
  function PercentileIndex(n: nat, q: nat): (idx: int)
    requires n > 0
    ensures 0 <= idx < n
  {
    var raw := (q * n + 99) / 100 - 1;
    if raw < 0 then 0 else if raw > n - 1 then n - 1 else raw
  }

  /** `percentile(sorted, q / 100)`: 0 for an empty list, otherwise the
      element at the nearest-rank index. */
  function Percentile(sorted: seq<int>, q: nat): (r: int)
    ensures sorted == [] ==> r == 0
    ensures sorted != [] ==> r in sorted
  {
    if sorted == [] then 0 else sorted[PercentileIndex(|sorted|, q)]
  }

  /** The nearest rank: for 0 < q <= 100 on a sorted list, the result is an
      element at or above which no more than (100 - q)% of the list lies, and
      at least q% of the list is at most the result. */
  lemma PercentileRank(sorted: seq<int>, q: nat)
    requires Sorted(sorted) && sorted != [] && 0 < q <= 100
    ensures var idx := PercentileIndex(|sorted|, q);
      && Percentile(sorted, q) == sorted[idx]
      && (idx + 1) * 100 >= q * |sorted|
      && idx * 100 < q * |sorted|
  {
  }

  /** A higher percentage never gives a smaller percentile. */
  lemma PercentileMonotone(sorted: seq<int>, q1: nat, q2: nat)
    requires Sorted(sorted) && q1 <= q2
    ensures Percentile(sorted, q1) <= Percentile(sorted, q2)
  {
    if sorted != [] {
      var n := |sorted|;
      assert q1 * n <= q2 * n by {
        assert (q2 - q1) * n >= 0;
      }
      assert PercentileIndex(n, q1) <= PercentileIndex(n, q2);
    }
  }

  /** The setup times of the samples the window holds, in queue order
      (`map(Sample::setupMs)`; the snapshot sorts them afterwards). The
      contract only fixes the shape; `SnapshotPercentiles` states what the
      snapshot reads from them. */
  function SetupTimes(samples: seq<Sample>): (r: seq<int>)
    ensures |r| == |samples|
    ensures forall i | 0 <= i < |samples| :: r[i] == samples[i].setupMs
  {
    seq(|samples|, i requires 0 <= i < |samples| => samples[i].setupMs)
  }

  /** `successRate`: 1 when no event is in the window, else s / (s + f).
      The source computes it in double precision; this is the exact ratio. */
  function SuccessRate(s: nat, f: nat): (r: real)
    ensures 0.0 <= r <= 1.0
    ensures s + f == 0 ==> r == 1.0
    ensures f == 0 ==> r == 1.0
    ensures s == 0 && f > 0 ==> r == 0.0
    ensures s > 0 && f > 0 ==> 0.0 < r < 1.0
    ensures s + f > 0 ==> r * ((s + f) as real) == s as real
  {
    if s + f == 0 then 1.0
    else
      var d := (s + f) as real;
      assert (s as real / d) * d == s as real;
      s as real / d
  }

  /** One success and one failure give one half. */
  lemma HalfAfterOneOfEach()
    ensures SuccessRate(1, 1) == 0.5
  {
  }

  /** What `snapshot` returns. */
  datatype MetricsSnapshot = MetricsSnapshot(p95ms: int, p99ms: int, successRate: real, samples: nat)

  /** The three queues. */
  datatype MetricsState = MetricsState(samples: seq<Sample>, successes: seq<int>, failures: seq<int>)

  /** `evictOld` at `now`, on each queue. */
  function Evicted(st: MetricsState, now: int): MetricsState {
    MetricsState(Evict(st.samples, SampleTs, now), Evict(st.successes, Stamp, now), Evict(st.failures, Stamp, now))
  }

  /** `recordSuccess(setupMs)` at `now`: one sample and one success, then
      eviction. */
  function SuccessRecorded(st: MetricsState, setupMs: int, now: int): MetricsState {
    Evicted(st.(samples := st.samples + [Sample(now, setupMs)], successes := st.successes + [now]), now)
  }

  /** `recordFailure()` at `now`: one failure, then eviction; no sample. */
  function FailureRecorded(st: MetricsState, now: int): MetricsState {
    Evicted(st.(failures := st.failures + [now]), now)
  }

  /** `snapshot()` at `now`, computed on the already evicted state. */
  function SnapshotOf(ev: MetricsState, now: int): MetricsSnapshot {
    var window := SortAsc(SetupTimes(ev.samples));
    MetricsSnapshot(Percentile(window, 95), Percentile(window, 99),
             SuccessRate(CountFresh(ev.successes, now), CountFresh(ev.failures, now)),
             |window|)
  }

  /** The snapshot's percentiles are members of the window with
      min <= p95 <= p99 <= max; an empty window reports 0 for both; the
      sample count is the size of the window after eviction. */
  lemma SnapshotPercentiles(st: MetricsState, now: int)
    ensures var ev := Evicted(st, now);
      var snap := SnapshotOf(ev, now);
      var times := SetupTimes(ev.samples);
      && snap.samples == |ev.samples|
      && (ev.samples == [] ==> snap.p95ms == 0 && snap.p99ms == 0)
      && (ev.samples != [] ==>
            && snap.p95ms in times && snap.p99ms in times
            && MinOf(times) <= snap.p95ms <= snap.p99ms <= MaxOf(times))
  {
    var ev := Evicted(st, now);
    var times := SetupTimes(ev.samples);
    var window := SortAsc(times);
    PercentileMonotone(window, 95, 99);
    if times != [] {
      forall v | v in window ensures v in times {
        assert v in multiset(window);
      }
      MinMaxOfSorted(window, times);
    }
  }

  /** With timestamps recorded in order, the in-window filter of the
      snapshot counts every entry left after eviction, so the success rate
      is the ratio of the two evicted queues' sizes. */
  lemma SnapshotRateOfQueues(st: MetricsState, now: int)
    requires InOrder(st.successes, Stamp) && InOrder(st.failures, Stamp)
    ensures var ev := Evicted(st, now);
      SnapshotOf(ev, now).successRate == SuccessRate(|ev.successes|, |ev.failures|)
  {
    var ev := Evicted(st, now);
    EvictInOrderKeepsWindow(st.successes, Stamp, now);
    EvictInOrderKeepsWindow(st.failures, Stamp, now);
    assert forall i | 0 <= i < |ev.successes| :: ev.successes[i] in ev.successes;
    assert forall i | 0 <= i < |ev.failures| :: ev.failures[i] in ev.failures;
    CountFreshAll(ev.successes, now);
    CountFreshAll(ev.failures, now);
  }

  /** A success just recorded survives its own eviction: it is the last
      sample and the last success; the queues grow by at most one. A
      failure adds no sample. */
  lemma RecordKeepsNewest(st: MetricsState, setupMs: int, now: int)
    ensures var st1 := SuccessRecorded(st, setupMs, now);
      && st1.samples != [] && st1.samples[|st1.samples| - 1] == Sample(now, setupMs)
      && st1.successes != [] && st1.successes[|st1.successes| - 1] == now
      && |st1.samples| <= |st.samples| + 1
      && st1.failures == Evict(st.failures, Stamp, now)
    ensures var st2 := FailureRecorded(st, now);
      && st2.failures != [] && st2.failures[|st2.failures| - 1] == now
      && st2.samples == Evict(st.samples, SampleTs, now)
  {
    EvictKeepsLast(st.samples + [Sample(now, setupMs)], SampleTs, now);
    EvictKeepsLast(st.successes + [now], Stamp, now);
    EvictKeepsLast(st.failures + [now], Stamp, now);
  }

  function MinOf(s: seq<int>): (m: int)
    requires s != []
    ensures m in s && forall v | v in s :: m <= v
    decreases |s|
  {
    if |s| == 1 then s[0]
    else
      var m := MinOf(s[1..]);
      assert forall v | v in s :: v == s[0] || v in s[1..];
      if s[0] <= m then s[0] else m
  }

  function MaxOf(s: seq<int>): (m: int)
    requires s != []
    ensures m in s && forall v | v in s :: v <= m
    decreases |s|
  {
    if |s| == 1 then s[0]
    else
      var m := MaxOf(s[1..]);
      assert forall v | v in s :: v == s[0] || v in s[1..];
      if s[0] >= m then s[0] else m
  }

  lemma MinMaxOfSorted(window: seq<int>, times: seq<int>)
    requires Sorted(window) && window != [] && multiset(window) == multiset(times)
    ensures times != []
    ensures forall q: nat :: MinOf(times) <= Percentile(window, q) <= MaxOf(times)
  {
    assert window[0] in multiset(times);
    assert times != [];
    forall q: nat ensures MinOf(times) <= Percentile(window, q) <= MaxOf(times) {
      var p := Percentile(window, q);
      assert p in window;
      assert p in multiset(window);
      assert p in times;
    }
  }

  /** A single sample in the window is both percentiles. */
  lemma SingleSample(x: int)
    ensures Percentile(SortAsc([x]), 95) == x && Percentile(SortAsc([x]), 99) == x
  {
  }

  /** Samples 100, 200, 300 give 300 for both percentiles. */
  lemma ThreeSamples()
    ensures Percentile([100, 200, 300], 95) == 300 && Percentile([100, 200, 300], 99) == 300
  {
  }

  /** The service object: three queues updated in place. */
  class QualityMetricsService {
    var samples: seq<Sample>
    var successes: seq<int>
    var failures: seq<int>

    function State(): MetricsState
      reads this
    {
      MetricsState(samples, successes, failures)
    }

    constructor ()
      ensures State() == MetricsState([], [], [])
    {
      samples, successes, failures := [], [], [];
    }

    method RecordSuccess(setupMs: int, now: int)
      modifies this
      ensures State() == SuccessRecorded(old(State()), setupMs, now)
    {
      samples := samples + [Sample(now, setupMs)];
      successes := successes + [now];
      EvictOld(now);
    }

    method RecordFailure(now: int)
      modifies this
      ensures State() == FailureRecorded(old(State()), now)
    {
      failures := failures + [now];
      EvictOld(now);
    }

    /** `evictOld`: pop stale heads from each queue. */
    method EvictOld(now: int)
      modifies this
      ensures State() == Evicted(old(State()), now)
    {
      while samples != [] && Stale(now, samples[0].ts)
        invariant Evict(samples, SampleTs, now) == Evict(old(samples), SampleTs, now)
        invariant successes == old(successes) && failures == old(failures)
        decreases |samples|
      {
        samples := samples[1..];
      }
      while successes != [] && Stale(now, successes[0])
        invariant Evict(successes, Stamp, now) == Evict(old(successes), Stamp, now)
        invariant samples == Evict(old(samples), SampleTs, now) && failures == old(failures)
        decreases |successes|
      {
        successes := successes[1..];
      }
      while failures != [] && Stale(now, failures[0])
        invariant Evict(failures, Stamp, now) == Evict(old(failures), Stamp, now)
        invariant samples == Evict(old(samples), SampleTs, now)
        invariant successes == Evict(old(successes), Stamp, now)
        decreases |failures|
      {
        failures := failures[1..];
      }
    }

    method Snapshot(now: int) returns (snap: MetricsSnapshot)
      modifies this
      ensures State() == Evicted(old(State()), now)
      ensures snap == SnapshotOf(State(), now)
    {
      EvictOld(now);
      var window := SortAsc(SetupTimes(samples));
      var p95 := Percentile(window, 95);
      var p99 := Percentile(window, 99);
      var rate := SuccessRate(CountFresh(successes, now), CountFresh(failures, now));
      snap := MetricsSnapshot(p95, p99, rate, |window|);
    }
  }
}
