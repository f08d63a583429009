/** The transcription provider's recent outcomes: counters, a ring of the latest
    round-trip times, and the health verdict read off them. Times are integers. */
module AsrOutcomes {
  import opened Collections
  import opened Sequences

  const LATENCY_RING: nat := 32

  /** One round trip; no error means success. `at` is the clock read on record. */
  datatype Trip = Trip(latency: int, error: Option<string>, at: int)

  datatype Snapshot = Snapshot(
    calls: nat, failures: nat, avgLatency: int, lastSuccess: Option<int>, lastError: string, lastErrorAt: Option<int>)

  function Sum(s: seq<int>): int {
    if s == [] then 0 else Sum(s[..|s| - 1]) + s[|s| - 1]
  }

  /** Division that truncates towards zero. */
  function TruncDiv(a: int, b: nat): (q: int)
    requires b > 0
    ensures a >= 0 ==> q * b <= a < q * b + b
    ensures a <= 0 ==> q * b - b < a <= q * b
  {
    if a >= 0 then a / b else -((-a) / b)
  }

  // ---- What the records add up to ----

  function Latencies(trips: seq<Trip>): (s: seq<int>)
    ensures |s| == |trips| && forall i :: 0 <= i < |s| ==> s[i] == trips[i].latency
  {
    seq(|trips|, i requires 0 <= i < |trips| => trips[i].latency)
  }

  function FailureCount(trips: seq<Trip>): nat {
    if trips == [] then 0 else FailureCount(trips[..|trips| - 1]) + if trips[|trips| - 1].error.Some? then 1 else 0
  }

  /** The last trip of the asked kind. */
  function LastOf(trips: seq<Trip>, failed: bool): Option<Trip> {
    if trips == [] then None
    else if trips[|trips| - 1].error.Some? == failed then Some(trips[|trips| - 1])
    else LastOf(trips[..|trips| - 1], failed)
  }

  function At(t: Option<Trip>): Option<int> {
    if t.Some? then Some(t.value.at) else None
  }

  /** The truncated mean of the newest 32 latencies, 0 before the first. */
  function Average(latencies: seq<int>): int {
    var window := Newest(latencies, LATENCY_RING);
    if window == [] then 0 else TruncDiv(Sum(window), |window|)
  }

  function SnapshotOf(trips: seq<Trip>): Snapshot {
    var err := LastOf(trips, true);
    Snapshot(|trips|, FailureCount(trips), Average(Latencies(trips)), At(LastOf(trips, false)),
             if err.Some? && err.value.error.Some? then err.value.error.value else "", At(err))
  }

  predicate After(a: Option<int>, b: Option<int>) {
    a.Some? && (b.None? || a.value > b.value)
  }

  predicate Degraded(s: Snapshot) {
    s.calls != 0 && s.failures != 0 && !After(s.lastSuccess, s.lastErrorAt)
  }

  lemma {:induction false} LastOfIsLast(trips: seq<Trip>, failed: bool)
    ensures var t := LastOf(trips, failed);
      if t.None? then forall i :: 0 <= i < |trips| ==> trips[i].error.Some? != failed
      else exists k :: 0 <= k < |trips| && trips[k] == t.value && trips[k].error.Some? == failed
             && forall i :: k < i < |trips| ==> trips[i].error.Some? != failed
  {
    if trips != [] && trips[|trips| - 1].error.Some? != failed {
      var n := |trips| - 1;
      LastOfIsLast(trips[..n], failed);
      assert forall i :: 0 <= i < n ==> trips[..n][i] == trips[i];
      if LastOf(trips, failed).Some? {
        var k :| 0 <= k < n && trips[..n][k] == LastOf(trips, failed).value && trips[..n][k].error.Some? == failed
          && forall i :: k < i < n ==> trips[..n][i].error.Some? != failed;
        assert trips[k] == LastOf(trips, failed).value;
      }
    }
  }

  lemma {:induction false} FailuresShow(trips: seq<Trip>)
    ensures FailureCount(trips) == 0 <==> LastOf(trips, true).None?
  {
    if trips != [] { FailuresShow(trips[..|trips| - 1]); }
  }

  /** With a clock that never runs back: degraded exactly when the last trip
      failed, or a failure carries the last trip's own clock reading. */
  lemma DegradedWhen(trips: seq<Trip>)
    requires forall i, j :: 0 <= i < j < |trips| ==> trips[i].at <= trips[j].at
    ensures Degraded(SnapshotOf(trips)) <==>
      trips != [] && exists i :: 0 <= i < |trips| && trips[i].error.Some? && trips[i].at == trips[|trips| - 1].at
  {
    FailuresShow(trips);
    LastOfIsLast(trips, true);
    LastOfIsLast(trips, false);
  }

  /** With distinct readings: degraded exactly when the last trip failed. */
  lemma DegradedIffLastFailed(trips: seq<Trip>)
    requires forall i, j :: 0 <= i < j < |trips| ==> trips[i].at < trips[j].at
    ensures Degraded(SnapshotOf(trips)) <==> trips != [] && trips[|trips| - 1].error.Some?
  {
    DegradedWhen(trips);
  }

  /** The newest k latencies, added up. */
  function Total(trips: seq<Trip>, k: nat): int
    requires k <= |trips|
  {
    if k == 0 then 0 else Total(trips, k - 1) + trips[|trips| - k].latency
  }

  lemma {:induction false} TotalIsSum(trips: seq<Trip>, k: nat)
    requires k <= |trips|
    ensures Total(trips, k) == Sum(Latencies(trips)[|trips| - k..])
  {
    var l := Latencies(trips);
    if k > 0 {
      TotalIsSum(trips, k - 1);
      assert l[|trips| - k..] == [trips[|trips| - k].latency] + l[|trips| - (k - 1)..];
      SumConcat([trips[|trips| - k].latency], l[|trips| - (k - 1)..]);
      assert [trips[|trips| - k].latency][..0] == [];
    }
  }

  /** The average times the number of trips it is taken over is the sum of their
      latencies, short of less than that number: over the newest 32 trips, or over
      all while there are fewer. */
  lemma AverageIsOverTheNewest(trips: seq<Trip>)
    ensures trips == [] ==> SnapshotOf(trips).avgLatency == 0
    ensures trips != [] ==>
      var k := if |trips| < 32 then |trips| else 32;
      var covered := SnapshotOf(trips).avgLatency * k;
      if Total(trips, k) >= 0 then covered <= Total(trips, k) < covered + k else covered - k < Total(trips, k) <= covered
  {
    if trips != [] {
      var k := if |trips| < 32 then |trips| else 32;
      TotalIsSum(trips, k);
      assert Newest(Latencies(trips), LATENCY_RING) == Latencies(trips)[|trips| - k..];
    }
  }

  /** Calls and failures are counted, and the last success and the last failure
      are those of the latest trips of their kind. */
  lemma {:induction false} SnapshotTells(trips: seq<Trip>)
    ensures var s := SnapshotOf(trips);
      && s.calls == |trips| && s.failures == |set i | 0 <= i < |trips| && trips[i].error.Some?|
      && (s.lastSuccess.Some? <==> exists i :: 0 <= i < |trips| && trips[i].error.None?)
      && (s.lastErrorAt.Some? <==> exists i :: 0 <= i < |trips| && trips[i].error.Some?)
    ensures forall k :: 0 <= k < |trips| && (forall i :: k < i < |trips| ==> trips[i].error.Some? != trips[k].error.Some?) ==>
      var s := SnapshotOf(trips);
      if trips[k].error.Some? then s.lastErrorAt == Some(trips[k].at) && s.lastError == trips[k].error.value
      else s.lastSuccess == Some(trips[k].at)
  {
    FailuresAreCounted(trips);
    LastOfIsLast(trips, true);
    LastOfIsLast(trips, false);
  }

  lemma {:induction false} FailuresAreCounted(trips: seq<Trip>)
    ensures FailureCount(trips) == |set i | 0 <= i < |trips| && trips[i].error.Some?|
  {
    if trips != [] {
      var n := |trips| - 1;
      FailuresAreCounted(trips[..n]);
      var before, all := (set i | 0 <= i < |trips[..n]| && trips[..n][i].error.Some?), (set i | 0 <= i < |trips| && trips[i].error.Some?);
      assert all == before + if trips[n].error.Some? then {n} else {};
    }
  }

  // ---- The ring ----

  /** The ring holds the newest latencies, each at its number modulo the size. */
  ghost predicate Holds(ring: seq<int>, latencies: seq<int>) {
    && |ring| == LATENCY_RING
    && forall t :: 0 <= t < |latencies| && t >= |latencies| - LATENCY_RING ==> ring[t % LATENCY_RING] == latencies[t]
  }

  lemma {:induction false} SumConcat(a: seq<int>, b: seq<int>)
    ensures Sum(a + b) == Sum(a) + Sum(b)
  {
    if b == [] {
      assert a + b == a;
    } else {
      SumConcat(a, b[..|b| - 1]);
      assert (a + b)[..|a + b| - 1] == a + b[..|b| - 1];
    }
  }

  /** One write at the next slot keeps the newest 32. */
  lemma WriteHolds(ring: seq<int>, latencies: seq<int>, x: int, slot: nat, ring': seq<int>, latencies': seq<int>)
    requires Holds(ring, latencies) && slot == |latencies| % LATENCY_RING
    requires ring' == ring[slot := x] && latencies' == latencies + [x]
    ensures Holds(ring', latencies')
  {
    var n := |latencies|;
    forall t | 0 <= t <= n && t > n - LATENCY_RING ensures ring'[t % LATENCY_RING] == latencies'[t] {
      if t < n { SlotsDiffer(t, n); }
    }
  }

  lemma SlotsDiffer(t: nat, n: nat)
    requires t < n < t + LATENCY_RING
    ensures t % LATENCY_RING != n % LATENCY_RING
  {
  }

  /** Where the t-th record sits when n have been made. */
  lemma SlotIn(n: nat, t: nat)
    requires n - LATENCY_RING <= t < n
    ensures t % LATENCY_RING ==
      if t < n - n % LATENCY_RING then t - (n - n % LATENCY_RING) + LATENCY_RING else t - (n - n % LATENCY_RING)
  {
  }

  lemma OldPart(ring: seq<int>, latencies: seq<int>, r: nat)
    requires Holds(ring, latencies) && |latencies| >= LATENCY_RING && r == |latencies| % LATENCY_RING
    ensures r < LATENCY_RING && ring[r..] == latencies[|latencies| - LATENCY_RING..|latencies| - r]
  {
    var n := |latencies|;
    var window := latencies[n - LATENCY_RING..n - r];
    forall i | 0 <= i < |window| ensures ring[r..][i] == window[i] {
      SlotIn(n, n - LATENCY_RING + i);
    }
  }

  lemma NewPart(ring: seq<int>, latencies: seq<int>, r: nat)
    requires Holds(ring, latencies) && |latencies| >= LATENCY_RING && r == |latencies| % LATENCY_RING
    ensures r < LATENCY_RING && ring[..r] == latencies[|latencies| - r..]
  {
    var n := |latencies|;
    forall i | 0 <= i < r ensures ring[..r][i] == latencies[n - r..][i] {
      SlotIn(n, n - r + i);
    }
  }

  lemma StartPart(ring: seq<int>, latencies: seq<int>)
    requires Holds(ring, latencies) && |latencies| < LATENCY_RING
    ensures ring[..|latencies|] == latencies
  {
    forall t | 0 <= t < |latencies| ensures ring[t] == latencies[t] { assert t % LATENCY_RING == t; }
  }

  lemma RotatedSum(ring: seq<int>, window: seq<int>, r: nat, cut: nat)
    requires r <= |ring| && cut <= |window| && ring[..r] == window[cut..] && ring[r..] == window[..cut]
    ensures Sum(ring) == Sum(window)
  {
    SumConcat(ring[..r], ring[r..]);
    SumConcat(window[..cut], window[cut..]);
    assert ring == ring[..r] + ring[r..] && window == window[..cut] + window[cut..];
  }

  /** Added up in slot order, the ring gives the sum of the newest latencies. */
  lemma RingSum(ring: seq<int>, latencies: seq<int>, filled: nat)
    requires Holds(ring, latencies) && filled == if |latencies| < LATENCY_RING then |latencies| else LATENCY_RING
    ensures Sum(ring[..filled]) == Sum(Newest(latencies, LATENCY_RING))
  {
    var n := |latencies|;
    if n < LATENCY_RING {
      StartPart(ring, latencies);
    } else {
      var r, window := n % LATENCY_RING, latencies[n - LATENCY_RING..];
      OldPart(ring, latencies, r);
      NewPart(ring, latencies, r);
      assert window[..LATENCY_RING - r] == latencies[n - LATENCY_RING..n - r];
      assert window[LATENCY_RING - r..] == latencies[n - r..];
      RotatedSum(ring, window, r, LATENCY_RING - r);
      assert ring[..filled] == ring && Newest(latencies, LATENCY_RING) == window;
    }
  }

  /** The tracker's plain fields. */
  datatype Counters = Counters(
    calls: nat, failures: nat, ringFilled: nat, ringNext: nat,
    lastOk: Option<int>, lastErr: string, lastErrAt: Option<int>)

  /** What they hold after these trips. */
  function CountersOf(trips: seq<Trip>): Counters {
    var s := SnapshotOf(trips);
    Counters(s.calls, s.failures, if |trips| < LATENCY_RING then |trips| else LATENCY_RING, |trips| % LATENCY_RING,
             s.lastSuccess, s.lastError, s.lastErrorAt)
  }

  lemma NextSlot(n: nat)
    ensures (n % LATENCY_RING + 1) % LATENCY_RING == (n + 1) % LATENCY_RING
  {
  }

  /** One more trip in the plain fields. */
  function Counted(c: Counters, trip: Trip): Counters {
    Counters(
      c.calls + 1, c.failures + if trip.error.Some? then 1 else 0,
      if c.ringFilled < LATENCY_RING then c.ringFilled + 1 else c.ringFilled, (c.ringNext + 1) % LATENCY_RING,
      if trip.error.Some? then c.lastOk else Some(trip.at),
      if trip.error.Some? then trip.error.value else c.lastErr,
      if trip.error.Some? then Some(trip.at) else c.lastErrAt)
  }

  lemma CountersAfter(trips: seq<Trip>, trip: Trip)
    ensures CountersOf(trips + [trip]) == Counted(CountersOf(trips), trip)
  {
    assert (trips + [trip])[..|trips + [trip]| - 1] == trips;
    NextSlot(|trips|);
  }

  /** The fields and the ring tell of these trips. */
  ghost predicate Tracks(ring: seq<int>, c: Counters, trips: seq<Trip>) {
    Holds(ring, Latencies(trips)) && c == CountersOf(trips)
  }

  lemma TracksOneMore(ring: seq<int>, c: Counters, trips: seq<Trip>, trip: Trip)
    requires Tracks(ring, c, trips)
    ensures c.ringNext < |ring| && Tracks(ring[c.ringNext := trip.latency], Counted(c, trip), trips + [trip])
  {
    CountersAfter(trips, trip);
    LatenciesAfter(trips, trip);
    WriteHolds(ring, Latencies(trips), trip.latency, c.ringNext, ring[c.ringNext := trip.latency], Latencies(trips + [trip]));
  }

  lemma LatenciesAfter(trips: seq<Trip>, trip: Trip)
    ensures Latencies(trips + [trip]) == Latencies(trips) + [trip.latency]
  {
  }

  class Outcomes {
    var calls: nat
    var failures: nat
    const ring: array<int>
    var ringFilled: nat
    var ringNext: nat
    var lastOk: Option<int>
    var lastErr: string
    var lastErrAt: Option<int>
    /** Every trip recorded so far. */
    ghost var trips: seq<Trip>

    ghost predicate Valid()
      reads this, ring
    {
      && ring.Length == LATENCY_RING
      && Tracks(ring[..], Counters(calls, failures, ringFilled, ringNext, lastOk, lastErr, lastErrAt), trips)
    }

    constructor ()
      ensures Valid() && trips == [] && fresh(ring)
    {
      calls, failures, ringFilled, ringNext := 0, 0, 0, 0;
      lastOk, lastErr, lastErrAt, trips := None, "", None, [];
      ring := new int[LATENCY_RING](_ => 0);
    }

    /** Writes the next slot of the ring. */
    method Push(latency: int)
      requires ring.Length == LATENCY_RING && ringNext < LATENCY_RING
      modifies this`ringFilled, this`ringNext, ring
      ensures ring[..] == old(ring[..])[old(ringNext) := latency]
      ensures ringNext == (old(ringNext) + 1) % LATENCY_RING
      ensures ringFilled == if old(ringFilled) < LATENCY_RING then old(ringFilled) + 1 else old(ringFilled)
    {
      ring[ringNext] := latency;
      ringNext := (ringNext + 1) % LATENCY_RING;
      if ringFilled < LATENCY_RING {
        ringFilled := ringFilled + 1;
      }
    }

    method Record(latency: int, err: Option<string>, now: int)
      requires Valid()
      modifies this, ring
      ensures Valid() && trips == old(trips) + [Trip(latency, err, now)]
    {
      ghost var trip := Trip(latency, err, now);
      TracksOneMore(ring[..], Counters(calls, failures, ringFilled, ringNext, lastOk, lastErr, lastErrAt), trips, trip);
      calls := calls + 1;
      Push(latency);
      trips := trips + [trip];
      if err.Some? {
        failures := failures + 1;
        lastErr, lastErrAt := err.value, Some(now);
      } else {
        lastOk := Some(now);
      }
    }

    /** Copies the current state; the average is worked out from the ring. */
    method Observe() returns (s: Snapshot)
      requires Valid()
      ensures s == SnapshotOf(trips)
    {
      var total := 0;
      assert ring[..0] == [];
      for i := 0 to ringFilled
        invariant total == Sum(ring[..i])
      {
        assert ring[..i + 1][..i] == ring[..i];
        total := total + ring[i];
      }
      RingSum(ring[..], Latencies(trips), ringFilled);
      assert ring[..ringFilled] == ring[..][..ringFilled];
      var avg := if ringFilled > 0 then TruncDiv(total, ringFilled) else 0;
      return Snapshot(calls, failures, avg, lastOk, lastErr, lastErrAt);
    }

    /** The health verdict, with the cause and its age when degraded. */
    method HealthCheck(now: int) returns (degraded: Option<(string, int)>)
      requires Valid()
      ensures degraded.Some? <==> Degraded(SnapshotOf(trips))
      ensures degraded.Some? ==> var last := LastOf(trips, true);
        last.Some? && degraded.value.1 == now - last.value.at && Some(degraded.value.0) == last.value.error
    {
      var s := Observe();
      if s.calls == 0 || s.failures == 0 {
        return None;
      }
      if After(s.lastSuccess, s.lastErrorAt) {
        return None;
      }
      FailuresShow(trips);
      LastOfIsLast(trips, true);
      return Some((s.lastError, now - s.lastErrorAt.value));
    }
  }
}
