/**
  Resource sampling: the deadline-driven loop of scripts/capacity_resource_sampler.py and the
  coverage tests of scripts/enterprise_capacity_gate.py, over the contract that
  scripts/capacity_evidence_manifest.py writes.

  Seconds are reals. The rounding of a recorded timestamp is a parameter.
 */
module Sampling {
  import opened Common

  datatype Contract = Contract(duration: real, interval: real, expected: int, maximumGap: real)

  datatype Sample = Sample(index: int, time: real)

  // ZeroInterval and NoSamples are the source's unhandled ZeroDivisionError and IndexError.
  datatype Refusal =
    | ZeroInterval | InconsistentCount | WrongCount | BadIndexes | NotIncreasing
    | NoSamples | FirstLate | LastEarly | GapTooLong

  // ---- the manifest ----

  // None is a refused manifest.
  function Manifest(duration: int, interval: real): Option<Contract> {
    if duration < 1800 || !(1.0 <= interval <= 10.0) then None
    else
      var expected := (duration as real / interval).Floor;
      if expected < 2 then None else Some(Contract(duration as real, interval, expected, interval * 1.5))
  }

  /** A manifest is written exactly for these bounds: they leave 180 samples or more, so the last test never fails. */
  lemma {:induction false} ManifestIff(duration: int, interval: real)
    ensures Manifest(duration, interval).Some? <==> 1800 <= duration && 1.0 <= interval <= 10.0
    ensures Manifest(duration, interval).Some? ==>
              var c := Manifest(duration, interval).value;
              && c.duration == duration as real && c.interval == interval && 180 <= c.expected
              && c.maximumGap == interval + interval / 2.0
  {
    if 1800 <= duration && 1.0 <= interval <= 10.0 {
      var quotient := duration as real / interval;
      assert quotient * interval == duration as real;
      assert Scale(180.0, interval) <= 1800.0;
      if quotient < 180.0 {
        ScaleGrows(quotient, 180.0, interval);
      }
    }
  }

  function Scale(n: real, interval: real): real { n * interval }

  lemma {:induction false} ScaleGrows(a: real, b: real, interval: real)
    requires 0.0 < interval && a < b
    ensures Scale(a, interval) < Scale(b, interval)
  {
    Positive(b - a, interval);
    assert (b - a) * interval == b * interval - a * interval;
  }

  lemma Positive(a: real, b: real)
    requires 0.0 < a && 0.0 < b
    ensures 0.0 < a * b
  {
  }

  lemma ScaleNext(n: real, interval: real)
    ensures Scale(n + 1.0, interval) == Scale(n, interval) + interval
  {
  }

  lemma {:induction false} ManifestCount(duration: int, interval: real)
    requires Manifest(duration, interval).Some?
    ensures var c := Manifest(duration, interval).value;
            Scale(c.expected as real, c.interval) <= c.duration < Scale(c.expected as real, c.interval) + c.interval
  {
    var quotient := duration as real / interval;
    assert Scale(quotient, interval) == duration as real;
    FloorScaled(quotient.Floor as real, quotient, duration as real, interval);
  }

  lemma {:induction false} FloorScaled(whole: real, quotient: real, duration: real, interval: real)
    requires 0.0 < interval && Scale(quotient, interval) == duration && whole <= quotient < whole + 1.0
    ensures Scale(whole, interval) <= duration < Scale(whole, interval) + interval
  {
    if whole < quotient {
      ScaleGrows(whole, quotient, interval);
    }
    ScaleGrows(quotient, whole + 1.0, interval);
    ScaleNext(whole, interval);
  }

  predicate Multiple(n: int, interval: real, duration: int) { Scale(n as real, interval) == duration as real }

  // ---- the gate ----

  predicate Increasing(ts: seq<real>) { forall i, j :: 0 <= i < j < |ts| ==> ts[i] < ts[j] }

  predicate GapsWithin(ts: seq<real>, gap: real) { forall i :: 0 <= i < |ts| - 1 ==> ts[i + 1] - ts[i] <= gap }

  function Times(samples: seq<Sample>): (ts: seq<real>)
    ensures |ts| == |samples| && forall i :: 0 <= i < |ts| ==> ts[i] == samples[i].time
  {
    seq(|samples|, i requires 0 <= i < |samples| => samples[i].time)
  }

  predicate Numbered(samples: seq<Sample>) { forall i :: 0 <= i < |samples| ==> samples[i].index == i + 1 }

  predicate Consistent(c: Contract) { c.interval != 0.0 && c.expected == (c.duration / c.interval).Floor }

  predicate Accepts(c: Contract, samples: seq<Sample>) { Consistent(c) && PassesTests(c, samples) }

  // The tests of the sample list alone.
  predicate PassesTests(c: Contract, samples: seq<Sample>) {
    && c.expected == |samples| > 0
    && Numbered(samples)
    && Increasing(Times(samples))
    && samples[0].time <= c.maximumGap
    && c.duration <= samples[|samples| - 1].time
    && GapsWithin(Times(samples), c.maximumGap)
  }

  /** The gate's tests in order; it accepts exactly the lists of `Accepts`. */
  method CheckSamples(c: Contract, samples: seq<Sample>) returns (result: Result<real, Refusal>)
    ensures result.Ok? <==> Accepts(c, samples)
    ensures result.Ok? ==> result.value == samples[|samples| - 1].time - samples[0].time
  {
    if c.interval == 0.0 { return Err(ZeroInterval); }
    if c.expected != (c.duration / c.interval).Floor { return Err(InconsistentCount); }
    if |samples| != c.expected { return Err(WrongCount); }
    var indexes, times := Columns(samples);
    if indexes != seq(|samples|, i => i + 1) { return Err(BadIndexes); }
    assert forall i :: 0 <= i < |samples| ==> samples[i].index == indexes[i] == i + 1;
    var increasing := IsIncreasing(times);
    if !increasing { return Err(NotIncreasing); }
    if times == [] { return Err(NoSamples); }
    if times[0] > c.maximumGap { return Err(FirstLate); }
    if times[|times| - 1] < c.duration { return Err(LastEarly); }
    var within := AreWithin(times, c.maximumGap);
    if !within { return Err(GapTooLong); }
    return Ok(times[|times| - 1] - times[0]);
  }

  method Columns(samples: seq<Sample>) returns (indexes: seq<int>, times: seq<real>)
    ensures times == Times(samples)
    ensures |indexes| == |samples| && forall i :: 0 <= i < |samples| ==> indexes[i] == samples[i].index
  {
    indexes, times := [], [];
    for i := 0 to |samples|
      invariant |indexes| == |times| == i
      invariant forall j :: 0 <= j < i ==> indexes[j] == samples[j].index && times[j] == samples[j].time
    {
      indexes := indexes + [samples[i].index];
      times := times + [samples[i].time];
    }
  }

  method IsIncreasing(ts: seq<real>) returns (b: bool)
    ensures b <==> Increasing(ts)
  {
    if |ts| < 2 { return true; }
    b := true;
    for i := 1 to |ts|
      invariant b <==> Increasing(ts[..i])
    {
      IncreasingStep(ts, i);
      b := b && ts[i - 1] < ts[i];
    }
    assert ts[..|ts|] == ts;
  }

  method AreWithin(ts: seq<real>, gap: real) returns (b: bool)
    ensures b <==> GapsWithin(ts, gap)
  {
    if |ts| < 2 { return true; }
    b := true;
    for i := 0 to |ts| - 1
      invariant b <==> forall j :: 0 <= j < i ==> ts[j + 1] - ts[j] <= gap
    {
      b := b && ts[i + 1] - ts[i] <= gap;
    }
  }

  lemma {:induction false} IncreasingStep(ts: seq<real>, i: nat)
    requires 0 < i < |ts|
    ensures Increasing(ts[..i + 1]) <==> Increasing(ts[..i]) && ts[i - 1] < ts[i]
  {
    var longer, shorter := ts[..i + 1], ts[..i];
    assert forall j :: 0 <= j < i ==> longer[j] == shorter[j];
    assert longer[i] == ts[i] && longer[i - 1] == ts[i - 1] == shorter[i - 1];
    if Increasing(shorter) && ts[i - 1] < ts[i] {
      forall a, b | 0 <= a < b < |longer| ensures longer[a] < longer[b] {
        if b == i && a < i - 1 {
          assert shorter[a] < shorter[i - 1];
        }
      }
    }
  }

  // ---- coverage ----

  // A sample follows the instant within the gap.
  predicate Follows(ts: seq<real>, x: real, gap: real) { exists i :: 0 <= i < |ts| && x <= ts[i] <= x + gap }

  ghost predicate Covers(ts: seq<real>, duration: real, gap: real) {
    forall x: real :: 0.0 <= x <= duration ==> Follows(ts, x, gap)
  }

  // A first index whose time is at or after x.
  lemma {:induction false} FirstFollowing(ts: seq<real>, x: real, n: nat)
    requires n < |ts| && x <= ts[n]
    ensures exists i :: 0 <= i <= n && x <= ts[i] && (i > 0 ==> ts[i - 1] < x)
  {
    if n > 0 && x <= ts[n - 1] {
      FirstFollowing(ts, x, n - 1);
    }
  }

  /** An accepted list leaves no instant of the run without a following sample within the gap. */
  lemma {:induction false} AcceptedCovers(c: Contract, samples: seq<Sample>)
    requires Accepts(c, samples)
    ensures Covers(Times(samples), c.duration, c.maximumGap)
  {
    TestsCover(Times(samples), c.duration, c.maximumGap);
  }

  /**
    The coverage tests are exact: for increasing times that start in the run and of which only
    the last may lie at or beyond its end, coverage is what the three tests say.
   */
  lemma {:induction false} CoverageIsExact(ts: seq<real>, duration: real, gap: real)
    requires Increasing(ts) && ts != [] && 0.0 <= ts[0] && 0.0 <= duration
    requires |ts| > 1 ==> ts[|ts| - 2] < duration
    ensures Covers(ts, duration, gap) <==> ts[0] <= gap && duration <= ts[|ts| - 1] && GapsWithin(ts, gap)
  {
    if Covers(ts, duration, gap) {
      assert Follows(ts, 0.0, gap) && Follows(ts, duration, gap);
      forall i | 0 <= i < |ts| - 1 ensures ts[i + 1] - ts[i] <= gap {
        GapFromCoverage(ts, duration, gap, i);
      }
    }
    if ts[0] <= gap && duration <= ts[|ts| - 1] && GapsWithin(ts, gap) {
      TestsCover(ts, duration, gap);
    }
  }

  lemma {:induction false} TestsCover(ts: seq<real>, duration: real, gap: real)
    requires ts != [] && ts[0] <= gap && duration <= ts[|ts| - 1] && GapsWithin(ts, gap)
    ensures Covers(ts, duration, gap)
  {
    forall x: real | 0.0 <= x <= duration ensures Follows(ts, x, gap) {
      FirstFollowing(ts, x, |ts| - 1);
      var i :| 0 <= i < |ts| && x <= ts[i] && (i > 0 ==> ts[i - 1] < x);
      if i > 0 {
        assert ts[(i - 1) + 1] - ts[i - 1] <= gap;
      }
      assert ts[i] <= x + gap;
    }
  }

  // An instant just after sample i is followed first by sample i + 1.
  lemma {:induction false} GapFromCoverage(ts: seq<real>, duration: real, gap: real, i: nat)
    requires Increasing(ts) && i + 1 < |ts| && 0.0 <= ts[0] && ts[|ts| - 2] < duration
    requires Covers(ts, duration, gap)
    ensures ts[i + 1] - ts[i] <= gap
  {
    assert i < |ts| - 2 ==> ts[i] < ts[|ts| - 2];
    assert i > 0 ==> ts[0] < ts[i];
    var half := (ts[i + 1] - ts[i] - gap) / 2.0;
    var x := if ts[i] + half <= duration then ts[i] + half else duration;
    if 0.0 < half {
      assert Follows(ts, x, gap);
      LateGapIsUncovered(ts, i, x, gap);
    }
  }

  lemma {:induction false} LateGapIsUncovered(ts: seq<real>, i: nat, x: real, gap: real)
    requires Increasing(ts) && i + 1 < |ts| && ts[i] < x && x + gap < ts[i + 1]
    ensures !Follows(ts, x, gap)
  {
    forall j | 0 <= j < |ts| ensures !(x <= ts[j] <= x + gap) {
      assert j < i ==> ts[j] < ts[i];
      assert i + 1 < j ==> ts[i + 1] < ts[j];
    }
  }

  // ---- the sampler ----

  // What happens around one sample: a stop request, the oversleep after the deadline (or after
  // arriving past it), and the work done before the next deadline is awaited.
  datatype Turn = Turn(stop: bool, oversleep: real, work: real)

  predicate Physical(turns: seq<Turn>) {
    forall i :: 0 <= i < |turns| ==> 0.0 <= turns[i].oversleep && 0.0 <= turns[i].work
  }

  // The deadline of sample k, as a sum of intervals; the source multiplies.
  function Due(interval: real, k: nat): real {
    if k == 0 then 0.0 else Due(interval, k - 1) + interval
  }

  lemma {:induction false} DueIsMultiple(interval: real, k: nat)
    ensures Due(interval, k) == Scale(k as real, interval)
  {
    if k > 0 {
      DueIsMultiple(interval, k - 1);
      ScaleNext((k - 1) as real, interval);
    }
  }

  // The time since the start at which sample k (from 1) is taken.
  function TakenAt(interval: real, turns: seq<Turn>, k: nat): real
    requires k <= |turns|
  {
    if k == 0 then 0.0
    else
      var arrived := TakenAt(interval, turns, k - 1) + if k > 1 then turns[k - 2].work else 0.0;
      Max(Due(interval, k), arrived) + turns[k - 1].oversleep
  }

  function Lateness(interval: real, turns: seq<Turn>, k: nat): real
    requires k <= |turns|
  {
    TakenAt(interval, turns, k) - Due(interval, k)
  }

  function Whole(n: int): real { n as real }

  ghost predicate Monotone(round: real -> real) { forall x: real, y: real :: x <= y ==> round(x) <= round(y) }

  // Timestamps are rounded to a grid that contains the whole seconds.
  ghost predicate IsRounding(round: real -> real, error: real) {
    && 0.0 <= error && Monotone(round)
    && (forall x: real :: x - error <= round(x) <= x + error)
    && (forall n: int :: round(Whole(n)) == Whole(n))
  }

  ghost function Recorded(round: real -> real, interval: real, turns: seq<Turn>, n: nat): (r: seq<Sample>)
    requires n <= |turns|
  {
    seq(n, i requires 0 <= i < n => Sample(i + 1, round(TakenAt(interval, turns, i + 1))))
  }

  lemma RecordedStep(round: real -> real, interval: real, turns: seq<Turn>, n: nat)
    requires n < |turns|
    ensures Recorded(round, interval, turns, n + 1)
         == Recorded(round, interval, turns, n) + [Sample(n + 1, round(TakenAt(interval, turns, n + 1)))]
  {
  }

  predicate Uninterrupted(turns: seq<Turn>, n: nat)
    requires n <= |turns|
  {
    forall i :: 0 <= i < n ==> !turns[i].stop
  }

  /** The sampling loop: the samples up to the first stop request, each against its absolute deadline. */
  method RunSampler(round: real -> real, c: Contract, turns: seq<Turn>) returns (samples: seq<Sample>)
    requires 0 <= c.expected == |turns|
    ensures |samples| <= |turns| && samples == Recorded(round, c.interval, turns, |samples|)
    ensures Uninterrupted(turns, |samples|)
    ensures |samples| < |turns| ==> turns[|samples|].stop
  {
    samples := [];
    var clock := 0.0;
    var index := 1;
    while index <= c.expected
      invariant 1 <= index <= c.expected + 1 && |samples| == index - 1
      invariant samples == Recorded(round, c.interval, turns, index - 1)
      invariant Uninterrupted(turns, index - 1)
      invariant clock == TakenAt(c.interval, turns, index - 1) + if index > 1 then turns[index - 2].work else 0.0
    {
      var turn := turns[index - 1];
      if turn.stop {
        break;
      }
      var deadline := index as real * c.interval;
      DueIsMultiple(c.interval, index);
      clock := Max(deadline, clock) + turn.oversleep;
      assert clock == TakenAt(c.interval, turns, index);
      RecordedStep(round, c.interval, turns, index - 1);
      samples := samples + [Sample(index, round(clock))];
      clock := clock + turn.work;
      index := index + 1;
    }
  }

  lemma {:induction false} NeverEarly(interval: real, turns: seq<Turn>, k: nat)
    requires Physical(turns) && k <= |turns|
    ensures 0.0 <= Lateness(interval, turns, k)
  {
  }

  /** Deadlines are absolute, so lateness does not accumulate while each turn fits its interval. */
  lemma {:induction false} LatenessDoesNotAccumulate(interval: real, turns: seq<Turn>, k: nat)
    requires Physical(turns) && 0 < k <= |turns| && 0.0 <= interval
    requires forall i :: 0 <= i < k - 1 ==> turns[i].oversleep + turns[i].work <= interval
    ensures Lateness(interval, turns, k) == turns[k - 1].oversleep
  {
    if k > 1 {
      LatenessDoesNotAccumulate(interval, turns, k - 1);
    } else {
      assert TakenAt(interval, turns, 0) == 0.0 && Due(interval, 0) == 0.0;
    }
  }

  ghost predicate Punctual(interval: real, turns: seq<Turn>, bound: real) {
    forall k :: 1 <= k <= |turns| ==> Lateness(interval, turns, k) <= bound
  }

  // Every run of the sampler whose lateness stays within a bound.
  ghost predicate AllowedRun(c: Contract, turns: seq<Turn>, bound: real) {
    && |turns| == c.expected
    && Physical(turns)
    && Uninterrupted(turns, |turns|)
    && Punctual(c.interval, turns, bound)
  }

  // What a manifest's contract says apart from its count of samples.
  predicate Regular(c: Contract) { 0 < c.expected && 0.0 < c.interval && c.maximumGap == c.interval * 1.5 }

  // Two neighbouring samples that are late by at most the bound are recorded apart, within the gap.
  ghost predicate Apart(round: real -> real, interval: real, bound: real, k: nat, x: real, y: real) {
    Due(interval, k) <= x <= Due(interval, k) + bound
      && Due(interval, k) + interval <= y <= Due(interval, k) + interval + bound
    ==> 0.0 < round(y) - round(x) <= interval * 1.5
  }

  // A rounding under which samples late by at most the bound pass the tests of their distances.
  ghost predicate Tolerates(round: real -> real, interval: real, bound: real) {
    && 0.0 <= bound
    && (forall k: nat, x: real, y: real :: Apart(round, interval, bound, k, x, y))
    && (forall x: real :: interval <= x <= interval + bound ==> round(x) <= interval * 1.5)
  }

  /** Any rounding tolerates half an interval less twice its error. */
  lemma {:induction false} ErrorTolerates(round: real -> real, error: real, interval: real)
    requires IsRounding(round, error) && 2.0 * error < interval / 2.0
    ensures Tolerates(round, interval, interval / 2.0 - 2.0 * error)
  {
  }

  // The deadlines and the points half an interval after them are timestamps.
  ghost predicate OnGrid(round: real -> real, interval: real) {
    forall k: nat :: round(Due(interval, k)) == Due(interval, k)
                     && round(Due(interval, k) + interval / 2.0) == Due(interval, k) + interval / 2.0
  }

  lemma {:induction false} GridApart(round: real -> real, interval: real, k: nat, x: real, y: real)
    requires Monotone(round) && OnGrid(round, interval) && 0.0 < interval
    ensures Apart(round, interval, interval / 2.0, k, x, y)
  {
    var early, late := Due(interval, k), Due(interval, k + 1);
    assert late == early + interval;
    if early <= x <= early + interval / 2.0 && late <= y <= late + interval / 2.0 {
      assert round(early) <= round(x) <= round(early + interval / 2.0);
      assert round(late) <= round(y) <= round(late + interval / 2.0);
    }
  }

  lemma {:induction false} GridFirst(round: real -> real, interval: real, x: real)
    requires Monotone(round) && OnGrid(round, interval) && interval <= x <= interval + interval / 2.0
    ensures round(x) <= interval * 1.5
  {
    var first := Due(interval, 1);
    assert Due(interval, 0) == 0.0 && first == interval;
    assert round(x) <= round(first + interval / 2.0) == first + interval / 2.0;
  }

  /** A rounding to a grid that contains those points tolerates half an interval. */
  lemma {:induction false} GridTolerates(round: real -> real, interval: real)
    requires Monotone(round) && OnGrid(round, interval) && 0.0 < interval
    ensures Tolerates(round, interval, interval / 2.0)
  {
    var half := interval / 2.0;
    forall k: nat, x: real, y: real ensures Apart(round, interval, half, k, x, y) {
      GridApart(round, interval, k, x, y);
    }
    forall x: real | interval <= x <= interval + half ensures round(x) <= interval * 1.5 {
      GridFirst(round, interval, x);
    }
  }

  lemma {:induction false} TakenWithin(interval: real, turns: seq<Turn>, bound: real, k: nat)
    requires Physical(turns) && Punctual(interval, turns, bound) && 1 <= k <= |turns|
    ensures Due(interval, k) <= TakenAt(interval, turns, k) <= Due(interval, k) + bound
  {
    NeverEarly(interval, turns, k);
    assert Lateness(interval, turns, k) <= bound;
  }

  lemma {:induction false} RecordedGap(round: real -> real, interval: real, turns: seq<Turn>, bound: real, k: nat)
    requires Tolerates(round, interval, bound)
    requires Physical(turns) && 1 <= k < |turns| && Punctual(interval, turns, bound)
    ensures 0.0 < round(TakenAt(interval, turns, k + 1)) - round(TakenAt(interval, turns, k)) <= interval * 1.5
  {
    TakenWithin(interval, turns, bound, k);
    TakenWithin(interval, turns, bound, k + 1);
    assert Apart(round, interval, bound, k, TakenAt(interval, turns, k), TakenAt(interval, turns, k + 1));
  }

  // The first sample is recorded within one and a half intervals, and the steps between samples are bounded.
  lemma {:induction false} RecordedSteps(round: real -> real, c: Contract, turns: seq<Turn>, bound: real, ts: seq<real>)
    requires Regular(c) && Tolerates(round, c.interval, bound) && AllowedRun(c, turns, bound)
    requires |ts| == c.expected && forall k :: 0 <= k < |ts| ==> ts[k] == round(TakenAt(c.interval, turns, k + 1))
    ensures forall k :: 0 <= k < |ts| - 1 ==> ts[k] < ts[k + 1] && ts[k + 1] - ts[k] <= c.maximumGap
    ensures ts[0] <= c.maximumGap
  {
    forall k | 0 <= k < |ts| - 1 ensures ts[k] < ts[k + 1] && ts[k + 1] - ts[k] <= c.maximumGap {
      RecordedGap(round, c.interval, turns, bound, k + 1);
    }
    TakenWithin(c.interval, turns, bound, 1);
    assert Due(c.interval, 0) == 0.0 && Due(c.interval, 1) == c.interval;
  }

  lemma {:induction false} StepsIncrease(ts: seq<real>, i: nat, j: nat)
    requires i < j < |ts| && forall k :: 0 <= k < |ts| - 1 ==> ts[k] < ts[k + 1]
    ensures ts[i] < ts[j]
    decreases j
  {
    if i < j - 1 {
      StepsIncrease(ts, i, j - 1);
    }
    assert ts[j - 1] < ts[(j - 1) + 1];
  }

  lemma ManifestIsRegular(duration: int, interval: real)
    requires Manifest(duration, interval).Some?
    ensures Regular(Manifest(duration, interval).value) && Consistent(Manifest(duration, interval).value)
  {
  }

  /** An allowed run passes the tests exactly when its last recorded time reaches the duration. */
  lemma {:induction false} AllowedRunPassesIff(round: real -> real, c: Contract, turns: seq<Turn>, bound: real)
    requires Regular(c) && Tolerates(round, c.interval, bound) && AllowedRun(c, turns, bound)
    ensures PassesTests(c, Recorded(round, c.interval, turns, c.expected))
            <==> c.duration <= round(TakenAt(c.interval, turns, c.expected))
  {
    var samples := Recorded(round, c.interval, turns, c.expected);
    var ts := Times(samples);
    RecordedSteps(round, c, turns, bound, ts);
    forall i, j | 0 <= i < j < |ts| ensures ts[i] < ts[j] {
      StepsIncrease(ts, i, j);
    }
  }

  ghost predicate AllRunsPass(round: real -> real, c: Contract, bound: real)
    requires 0 <= c.expected
  {
    forall turns :: AllowedRun(c, turns, bound) ==> PassesTests(c, Recorded(round, c.interval, turns, c.expected))
  }

  lemma {:induction false} ReachingTheEndPasses(round: real -> real, c: Contract, turns: seq<Turn>, bound: real)
    requires Monotone(round) && Regular(c) && Tolerates(round, c.interval, bound)
    requires AllowedRun(c, turns, bound) && c.duration <= round(Due(c.interval, c.expected))
    ensures PassesTests(c, Recorded(round, c.interval, turns, c.expected))
  {
    NeverEarly(c.interval, turns, c.expected);
    assert round(Due(c.interval, c.expected)) <= round(TakenAt(c.interval, turns, c.expected));
    AllowedRunPassesIff(round, c, turns, bound);
  }

  lemma {:induction false} OnTimePassesIff(round: real -> real, c: Contract, turns: seq<Turn>, bound: real)
    requires Regular(c) && Tolerates(round, c.interval, bound)
    requires AllowedRun(c, turns, bound) && TakenAt(c.interval, turns, c.expected) == Due(c.interval, c.expected)
    ensures PassesTests(c, Recorded(round, c.interval, turns, c.expected))
            <==> c.duration <= round(Due(c.interval, c.expected))
  {
    AllowedRunPassesIff(round, c, turns, bound);
  }

  /** All allowed runs pass exactly when the last deadline, as recorded, reaches the end of the run. */
  lemma {:induction false} AllRunsPassIff(round: real -> real, c: Contract, bound: real)
    requires Monotone(round) && Regular(c) && Tolerates(round, c.interval, bound)
    ensures AllRunsPass(round, c, bound) <==> c.duration <= round(Due(c.interval, c.expected))
  {
    PromptIsAllowed(c, bound);
    OnTimePassesIff(round, c, Prompt(c.expected), bound);
    if c.duration <= round(Due(c.interval, c.expected)) {
      forall turns | AllowedRun(c, turns, bound)
        ensures PassesTests(c, Recorded(round, c.interval, turns, c.expected))
      {
        ReachingTheEndPasses(round, c, turns, bound);
      }
    }
  }

  /** Under a manifest's contract, every allowed run is accepted if the interval divides the duration. */
  lemma {:induction false} DividingIntervalPasses(
    round: real -> real, error: real, duration: int, interval: real, turns: seq<Turn>)
    requires IsRounding(round, error) && Manifest(duration, interval).Some? && 2.0 * error < interval / 2.0
    requires AllowedRun(Manifest(duration, interval).value, turns, interval / 2.0 - 2.0 * error)
    requires exists n: int :: Multiple(n, interval, duration)
    ensures var c := Manifest(duration, interval).value;
            Accepts(c, Recorded(round, interval, turns, c.expected))
  {
    var c := Manifest(duration, interval).value;
    DivisionIsExact(duration, interval);
    DueIsMultiple(interval, c.expected);
    assert round(Whole(duration)) == duration as real == Due(c.interval, c.expected);
    ManifestIsRegular(duration, interval);
    ErrorTolerates(round, error, interval);
    ReachingTheEndPasses(round, c, turns, interval / 2.0 - 2.0 * error);
  }

  /**
    When the deadlines and the points half an interval after them are timestamps: all runs late by
    at most half an interval pass exactly when the interval divides the duration.
   */
  lemma {:induction false} HalfIntervalPassesIffDividing(round: real -> real, duration: int, interval: real)
    requires Monotone(round) && OnGrid(round, interval) && Manifest(duration, interval).Some?
    ensures AllRunsPass(round, Manifest(duration, interval).value, interval / 2.0)
            <==> exists n: int :: Multiple(n, interval, duration)
  {
    var c := Manifest(duration, interval).value;
    ManifestIsRegular(duration, interval);
    GridTolerates(round, interval);
    AllRunsPassIff(round, c, interval / 2.0);
    assert round(Due(interval, c.expected)) == Due(interval, c.expected);
    DividesIffReached(duration, interval);
  }

  lemma {:induction false} DividesIffReached(duration: int, interval: real)
    requires Manifest(duration, interval).Some?
    ensures var c := Manifest(duration, interval).value;
            c.duration <= Due(c.interval, c.expected) <==> exists n: int :: Multiple(n, interval, duration)
  {
    ManifestCount(duration, interval);
    DivisionIsExact(duration, interval);
    DueIsMultiple(interval, Manifest(duration, interval).value.expected);
  }

  /** With exact timestamps in particular. */
  lemma {:induction false} ExactClockPassesIffDividing(round: real -> real, duration: int, interval: real)
    requires IsRounding(round, 0.0) && Manifest(duration, interval).Some?
    ensures AllRunsPass(round, Manifest(duration, interval).value, interval / 2.0)
            <==> exists n: int :: Multiple(n, interval, duration)
  {
    assert OnGrid(round, interval);
    HalfIntervalPassesIffDividing(round, duration, interval);
  }

  lemma {:induction false} DivisionIsExact(duration: int, interval: real)
    requires Manifest(duration, interval).Some?
    ensures (exists n: int :: Multiple(n, interval, duration))
            <==> Multiple(Manifest(duration, interval).value.expected, interval, duration)
  {
    var c := Manifest(duration, interval).value;
    ManifestCount(duration, interval);
    if n: int :| Multiple(n, interval, duration) {
      OnlyMultiple(n, c.expected, interval, duration as real);
    }
  }

  lemma {:induction false} OnlyMultiple(n: int, whole: int, interval: real, duration: real)
    requires 0.0 < interval && Scale(n as real, interval) == duration
    requires Scale(whole as real, interval) <= duration < Scale(whole as real, interval) + interval
    ensures n == whole
  {
    ScaleNext(whole as real, interval);
    if n < whole {
      ScaleGrows(n as real, whole as real, interval);
    } else if whole + 1 < n {
      ScaleGrows(whole as real + 1.0, n as real, interval);
    }
  }

  // The run without any delay.
  function Prompt(n: nat): seq<Turn> { seq(n, _ => Turn(false, 0.0, 0.0)) }

  lemma {:induction false} PromptIsOnTime(interval: real, n: nat, k: nat)
    requires 0.0 <= interval && k <= n
    ensures TakenAt(interval, Prompt(n), k) == Due(interval, k)
  {
    if k > 0 {
      PromptIsOnTime(interval, n, k - 1);
    }
  }

  lemma {:induction false} PromptIsAllowed(c: Contract, bound: real)
    requires 0 <= c.expected && 0.0 <= c.interval && 0.0 <= bound
    ensures AllowedRun(c, Prompt(c.expected), bound)
    ensures TakenAt(c.interval, Prompt(c.expected), c.expected) == Due(c.interval, c.expected)
  {
    forall k | 1 <= k <= c.expected ensures Lateness(c.interval, Prompt(c.expected), k) == 0.0 {
      PromptIsOnTime(c.interval, c.expected, k);
    }
    PromptIsOnTime(c.interval, c.expected, c.expected);
  }
}
