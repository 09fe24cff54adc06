/**
  When two workers can hold the same upload claim at once.

  One upload row, any number of workers with skewed clocks, and real time. A cycle of a worker
  ends within the worker's limit: the maintenance process cancels its cycles after 105 seconds,
  the maintenance route of app/api/v1/routes/internal.py may take longer. A claim moves the row's
  deadline 15 minutes ahead on the claiming worker's clock. Other transactions on the row happen at
  arbitrary clock readings.
 */
module UploadTiming {
  import opened Quota
  import opened UploadRows

  const CYCLE_SECONDS := 105.0

  type Worker = nat

  // How far a worker's clock is ahead of real time, and how long its cycles may last.
  datatype Timing = Timing(clock: Worker -> real, limit: Worker -> real) {
    ghost predicate Valid() { forall w: Worker :: 0.0 <= limit(w) }
  }

  // `cycles` maps a running cycle to its start; `claims` the cycles that claimed this upload to
  // the time of their last claim of it; `holders` the workers that are still acting on a claim.
  datatype State =
    State(time: real, row: Upload, cycles: map<Worker, real>, claims: map<Worker, real>, holders: set<Worker>)

  datatype Step =
    | Advance(seconds: real)
    | StartCycle(w: Worker)
    | EndCycle(w: Worker)                 // the batch is done, or the deadline cancels it
    | ClaimBy(w: Worker)
    | LetGo(w: Worker)                    // the worker goes on to its next claim
    | Finalize(now: real)                 // complete_upload extends the deadline
    | Settle(status: SessionStatus, outcome: ReservationStatus)
    | Abort(now: real)                    // abort_upload brings the deadline forward

  predicate Enabled(env: Timing, s: State, step: Step) {
    match step
    // Time cannot pass a running cycle's deadline: the cycle is cancelled there.
    case Advance(d) => 0.0 <= d && forall w :: w in s.cycles ==> s.time + d <= s.cycles[w] + env.limit(w)
    case StartCycle(w) => w !in s.cycles
    case EndCycle(w) => w in s.cycles
    case ClaimBy(w) => w in s.cycles && w !in s.holders && Claimable(s.row, s.time + env.clock(w))
    case LetGo(w) => w in s.holders
    case Finalize(now) => CanBeginFinalize(s.row, now)
    // A publication, a rejection, or the end of an abort or of a claim. ABORTED is final.
    case Settle(status, outcome) =>
      && s.row.status != Completed && status in {Completed, Failed, Aborted, Expired} && outcome != Held
      && (s.row.status == Aborted ==> status == Aborted)
    case Abort(_) => CanBeginAbort(s.row)
  }

  function Next(env: Timing, s: State, step: Step): State
    requires Enabled(env, s, step)
  {
    match step
    case Advance(d) => s.(time := s.time + d)
    case StartCycle(w) => s.(cycles := s.cycles[w := s.time])
    case EndCycle(w) => s.(cycles := s.cycles - {w}, claims := s.claims - {w}, holders := s.holders - {w})
    case ClaimBy(w) =>
      s.(row := ClaimRow(s.row, s.time + env.clock(w)), claims := s.claims[w := s.time], holders := s.holders + {w})
    case LetGo(w) => s.(holders := s.holders - {w})
    case Finalize(now) => s.(row := BeginFinalizeRow(s.row, now))
    case Settle(status, outcome) => s.(row := SettleRow(s.row, status, outcome))
    case Abort(now) => s.(row := BeginAbortRow(s.row, now))
  }

  function Run(env: Timing, s: State, steps: seq<Step>): State
    decreases |steps|
  {
    if steps == [] then s
    else Run(env, Apply(env, s, steps[0]), steps[1..])
  }

  predicate Initial(s: State) {
    s.cycles == map[] && s.claims == map[] && s.holders == {}
  }

  function Apply(env: Timing, s: State, step: Step): State {
    if Enabled(env, s, step) then Next(env, s, step) else s
  }

  // An abort that brings the deadline forward: the first one of a session.
  predicate FirstAbort(env: Timing, s: State, step: Step) {
    step.Abort? && Enabled(env, s, step) && s.row.status != Aborted
  }

  // No session is aborted for the first time while a cycle that claimed it is running, whether or
  // not the worker has let it go. Retried aborts may come at any time.
  predicate NoAbortUnderClaim(env: Timing, s: State, steps: seq<Step>)
    decreases |steps|
  {
    steps == [] ||
    (&& (FirstAbort(env, s, steps[0]) ==> s.claims == map[])
     && NoAbortUnderClaim(env, Apply(env, s, steps[0]), steps[1..]))
  }

  // No session is aborted for the first time while a worker is acting on a claim of it.
  predicate NoAbortUnderHolder(env: Timing, s: State, steps: seq<Step>)
    decreases |steps|
  {
    steps == [] ||
    (&& (FirstAbort(env, s, steps[0]) ==> s.holders == {})
     && NoAbortUnderHolder(env, Apply(env, s, steps[0]), steps[1..]))
  }

  // At most one worker acts on the upload.
  predicate Exclusive(s: State) {
    forall v, w :: v in s.holders && w in s.holders ==> v == w
  }

  // On every other worker's clock, a lease outlasts the cycle that took it.
  ghost predicate LeasesOutlast(env: Timing) {
    forall v: Worker, w: Worker :: v != w ==> env.clock(v) - env.clock(w) + env.limit(w) <= LEASE_SECONDS
  }

  // A cycle that claimed the upload is still running, and the lease it took outlives the cycle.
  predicate LeaseCovers(env: Timing, s: State, w: Worker)
    requires w in s.claims
  {
    && w in s.cycles
    && s.cycles[w] <= s.claims[w] <= s.time <= s.cycles[w] + env.limit(w)
    && s.claims[w] + env.clock(w) + LEASE_SECONDS <= s.row.expiresAt
  }

  predicate Inv(env: Timing, s: State) {
    && (forall w :: w in s.cycles ==> s.cycles[w] <= s.time <= s.cycles[w] + env.limit(w))
    && s.holders <= s.claims.Keys
    && (forall w :: w in s.claims ==> LeaseCovers(env, s, w))
    && (forall v, w :: v in s.claims && w in s.claims ==> v == w)
  }

  /** While a cycle that claimed the upload is running, no other worker can claim it, nor its own within 15 minutes. */
  lemma {:induction false} LeasedIsNotClaimable(env: Timing, s: State, w: Worker, v: Worker)
    requires LeasesOutlast(env) && Inv(env, s) && w in s.claims
    ensures v != w || env.limit(w) <= LEASE_SECONDS ==> !Claimable(s.row, s.time + env.clock(v))
  {
    assert LeaseCovers(env, s, w);
    assert v != w ==> env.clock(v) - env.clock(w) + env.limit(w) <= LEASE_SECONDS;
  }

  lemma {:induction false} StepKeepsInv(env: Timing, s: State, step: Step)
    requires env.Valid() && LeasesOutlast(env) && Inv(env, s) && Enabled(env, s, step)
    requires FirstAbort(env, s, step) ==> s.claims == map[]
    ensures Inv(env, Next(env, s, step))
  {
    var t := Next(env, s, step);
    if step.ClaimBy? {
      forall w | w in s.claims ensures w == step.w {
        LeasedIsNotClaimable(env, s, w, step.w);
      }
      assert forall w :: w in t.claims ==> w == step.w;
    } else if !FirstAbort(env, s, step) {
      forall w | w in t.claims ensures LeaseCovers(env, t, w) {
        assert LeaseCovers(env, s, w);
      }
    }
  }

  lemma {:induction false} RunKeepsInv(env: Timing, s: State, steps: seq<Step>)
    requires env.Valid() && LeasesOutlast(env) && Inv(env, s) && NoAbortUnderClaim(env, s, steps)
    ensures Inv(env, Run(env, s, steps))
    decreases |steps|
  {
    if steps != [] {
      if Enabled(env, s, steps[0]) {
        StepKeepsInv(env, s, steps[0]);
      }
      RunKeepsInv(env, Apply(env, s, steps[0]), steps[1..]);
    }
  }

  // The same of the workers that are still acting on a claim.
  predicate HolderInv(env: Timing, s: State) {
    && (forall w :: w in s.cycles ==> s.cycles[w] <= s.time <= s.cycles[w] + env.limit(w))
    && s.holders <= s.claims.Keys
    && (forall w :: w in s.holders ==> LeaseCovers(env, s, w))
    && Exclusive(s)
  }

  lemma {:induction false} HeldIsNotClaimable(env: Timing, s: State, v: Worker)
    requires LeasesOutlast(env) && HolderInv(env, s)
    ensures forall w :: w in s.holders && w != v ==> !Claimable(s.row, s.time + env.clock(v))
  {
    forall w | w in s.holders && w != v ensures !Claimable(s.row, s.time + env.clock(v)) {
      assert LeaseCovers(env, s, w);
      assert env.clock(v) - env.clock(w) + env.limit(w) <= LEASE_SECONDS;
    }
  }

  lemma {:induction false} StepKeepsHolderInv(env: Timing, s: State, step: Step)
    requires env.Valid() && LeasesOutlast(env) && HolderInv(env, s) && Enabled(env, s, step)
    requires FirstAbort(env, s, step) ==> s.holders == {}
    ensures HolderInv(env, Next(env, s, step))
  {
    var t := Next(env, s, step);
    if step.ClaimBy? {
      HeldIsNotClaimable(env, s, step.w);
    } else if !FirstAbort(env, s, step) {
      forall w | w in t.holders ensures LeaseCovers(env, t, w) {
        assert LeaseCovers(env, s, w);
      }
    }
  }

  lemma {:induction false} RunKeepsHolderInv(env: Timing, s: State, steps: seq<Step>)
    requires env.Valid() && LeasesOutlast(env) && HolderInv(env, s) && NoAbortUnderHolder(env, s, steps)
    ensures HolderInv(env, Run(env, s, steps))
    decreases |steps|
  {
    if steps != [] {
      if Enabled(env, s, steps[0]) {
        StepKeepsHolderInv(env, s, steps[0]);
      }
      RunKeepsHolderInv(env, Apply(env, s, steps[0]), steps[1..]);
    }
  }

  /**
    If no session is aborted for the first time in a cycle that claimed it, even after the worker
    has let it go, a cycle of at most 15 minutes never claims the same upload twice, and no other
    worker claims it meanwhile.
   */
  lemma {:induction false} NoSecondClaim(env: Timing, s: State, steps: seq<Step>, w: Worker)
    requires env.Valid() && LeasesOutlast(env) && Initial(s) && NoAbortUnderClaim(env, s, steps)
    ensures var end := Run(env, s, steps);
            forall v :: v in end.claims && (v == w ==> env.limit(w) <= LEASE_SECONDS) ==> !Enabled(env, end, ClaimBy(w))
  {
    RunKeepsInv(env, s, steps);
    var end := Run(env, s, steps);
    forall v | v in end.claims && (v == w ==> env.limit(w) <= LEASE_SECONDS) ensures !Enabled(env, end, ClaimBy(w)) {
      LeasedIsNotClaimable(env, end, v, w);
    }
  }

  ghost predicate AlwaysExclusive(env: Timing) {
    forall s, steps :: Initial(s) && NoAbortUnderHolder(env, s, steps) ==> Exclusive(Run(env, s, steps))
  }

  // At the last moment of a cycle another worker sees the lease it took as expired.
  function Overtake(env: Timing, slow: Worker, fast: Worker): seq<Step> {
    [StartCycle(slow), ClaimBy(slow), Advance(env.limit(slow)), StartCycle(fast), ClaimBy(fast)]
  }

  lemma {:induction false} OvertakeBreaksExclusion(env: Timing, slow: Worker, fast: Worker)
    requires env.Valid() && slow != fast && LEASE_SECONDS < env.clock(fast) - env.clock(slow) + env.limit(slow)
    ensures exists s :: Initial(s) && NoAbortUnderHolder(env, s, Overtake(env, slow, fast))
                        && {slow, fast} <= Run(env, s, Overtake(env, slow, fast)).holders
  {
    var s0 := State(0.0, Upload(Finalizing, env.clock(slow) - 1.0, []), map[], map[], {});
    var steps := Overtake(env, slow, fast);
    var s1 := Next(env, s0, steps[0]);
    var s2 := Next(env, s1, steps[1]);
    var s3 := Next(env, s2, steps[2]);
    var s4 := Next(env, s3, steps[3]);
    var s5 := Next(env, s4, steps[4]);
    assert Run(env, s4, steps[4..]) == Run(env, s5, steps[4..][1..]) && steps[4..][1..] == [];
    assert Run(env, s3, steps[3..]) == Run(env, s4, steps[3..][1..]) && steps[3..][1..] == steps[4..];
    assert Run(env, s2, steps[2..]) == Run(env, s3, steps[2..][1..]) && steps[2..][1..] == steps[3..];
    assert Run(env, s1, steps[1..]) == Run(env, s2, steps[1..][1..]) && steps[1..][1..] == steps[2..];
    assert Run(env, s0, steps) == Run(env, s1, steps[1..]);
    assert NoAbortUnderHolder(env, s4, steps[4..]);
    assert NoAbortUnderHolder(env, s3, steps[3..]);
    assert NoAbortUnderHolder(env, s2, steps[2..]);
    assert NoAbortUnderHolder(env, s1, steps[1..]);
  }

  /**
    The condition is exact: exclusion holds in every run if and only if every lease outlasts its
    cycle on every other clock.
   */
  lemma {:induction false} ExclusionIffLeasesOutlast(env: Timing)
    requires env.Valid()
    ensures AlwaysExclusive(env) <==> LeasesOutlast(env)
  {
    if LeasesOutlast(env) {
      forall s, steps | Initial(s) && NoAbortUnderHolder(env, s, steps) ensures Exclusive(Run(env, s, steps)) {
        RunKeepsHolderInv(env, s, steps);
      }
    } else {
      var v: Worker, w: Worker :| v != w && LEASE_SECONDS < env.clock(v) - env.clock(w) + env.limit(w);
      OvertakeBreaksExclusion(env, w, v);
      var s :| Initial(s) && NoAbortUnderHolder(env, s, Overtake(env, w, v))
        && {w, v} <= Run(env, s, Overtake(env, w, v)).holders;
      assert !Exclusive(Run(env, s, Overtake(env, w, v)));
    }
  }

  ghost predicate SkewBounded(env: Timing) {
    forall v: Worker, w: Worker :: env.clock(v) - env.clock(w) <= 795.0
  }

  // Every worker is the maintenance process.
  function Maintenance(clock: Worker -> real): Timing { Timing(clock, _ => CYCLE_SECONDS) }

  /** For cycles of 105 seconds: 795 seconds of skew is safe in every run, and any more is not. */
  lemma {:induction false} ExclusionIffSkewBounded(env: Timing)
    requires forall w: Worker :: env.limit(w) == 105.0
    ensures AlwaysExclusive(env) <==> SkewBounded(env)
  {
    ExclusionIffLeasesOutlast(env);
    assert LeasesOutlast(env) <==> SkewBounded(env) by {
      forall v: Worker, w: Worker | LeasesOutlast(env) ensures env.clock(v) - env.clock(w) <= 795.0 {
        assert v != w ==> env.clock(v) - env.clock(w) + env.limit(w) <= LEASE_SECONDS;
      }
    }
  }

  const SYNCHRONISED := Maintenance((w: Worker) => 0.0)

  const HELD_QUOTA := [Reservation(CounterKey(0, "file_count", 0), 1, Held)]

  const OVERDUE := State(0.0, Upload(Finalizing, -1.0, HELD_QUOTA), map[], map[], {})

  // Worker 0 claims, the owner aborts, and worker 1 claims one second later.
  const CLAIMED := [StartCycle(0), StartCycle(1), ClaimBy(0)]
  const THEN_ABORTED := [Abort(0.0), Advance(1.0), ClaimBy(1)]

  lemma {:induction false} RunThree(env: Timing, s: State, a: Step, b: Step, c: Step)
    ensures Run(env, s, [a, b, c]) == Apply(env, Apply(env, Apply(env, s, a), b), c)
  {
    var s1 := Apply(env, s, a);
    var s2 := Apply(env, s1, b);
    assert [a, b, c][1..] == [b, c] && [b, c][1..] == [c] && [c][1..] == [];
    assert Run(env, s2, [c]) == Run(env, Apply(env, s2, c), []);
    assert Run(env, s1, [b, c]) == Run(env, s2, [c]);
  }

  lemma {:induction false} ClaimedState()
    ensures Run(SYNCHRONISED, OVERDUE, CLAIMED)
         == State(0.0, Upload(Finalizing, 900.0, HELD_QUOTA), map[0 := 0.0, 1 := 0.0], map[0 := 0.0], {0})
  {
    RunThree(SYNCHRONISED, OVERDUE, CLAIMED[0], CLAIMED[1], CLAIMED[2]);
  }

  /**
    The exclusion of aborts is needed: with perfectly synchronised clocks, aborting a session that
    a worker holds lets a second worker claim it one second later.
   */
  lemma {:induction false} AbortBreaksExclusion()
    ensures Initial(OVERDUE)
    ensures Run(SYNCHRONISED, OVERDUE, CLAIMED + THEN_ABORTED).holders == {0, 1}
  {
    ClaimedState();
    RunThree(SYNCHRONISED, Run(SYNCHRONISED, OVERDUE, CLAIMED), THEN_ABORTED[0], THEN_ABORTED[1], THEN_ABORTED[2]);
    RunSplit(SYNCHRONISED, OVERDUE, CLAIMED, THEN_ABORTED);
    assert HELD_QUOTA[0].status == Held;
  }

  // ---- when an abort lets a second worker in ----

  // The cycle of w is not ended.
  predicate Keeps(w: Worker, steps: seq<Step>) { forall i :: 0 <= i < |steps| ==> steps[i] != EndCycle(w) }

  // Some continuation has v claim the upload while w's present cycle is still running.
  ghost predicate LetsIn(env: Timing, s: State, v: Worker, w: Worker) {
    exists steps :: Keeps(w, steps) && v in Run(env, s, steps).claims
  }

  // After an abort at `now` under the claim of w, in a cycle that began at `start`: v cannot claim.
  predicate ShutOut(env: Timing, s: State, v: Worker, w: Worker, start: real) {
    && w in s.cycles && s.cycles[w] == start && start <= s.time <= start + env.limit(w)
    && v !in s.claims
    && s.row.status == Aborted
    && (HasHeld(s.row.reservations) ==> start + env.limit(w) + env.clock(v) <= s.row.expiresAt)
  }

  lemma {:induction false} StepKeepsShutOut(env: Timing, s: State, v: Worker, w: Worker, start: real, step: Step)
    requires ShutOut(env, s, v, w, start) && step != EndCycle(w) && Enabled(env, s, step)
    ensures ShutOut(env, Next(env, s, step), v, w, start)
  {
  }

  lemma {:induction false} ShutOutForGood(env: Timing, s: State, v: Worker, w: Worker, start: real, steps: seq<Step>)
    requires ShutOut(env, s, v, w, start) && Keeps(w, steps)
    ensures v !in Run(env, s, steps).claims
    decreases |steps|
  {
    if steps != [] {
      if Enabled(env, s, steps[0]) {
        StepKeepsShutOut(env, s, v, w, start, steps[0]);
      }
      ShutOutForGood(env, Apply(env, s, steps[0]), v, w, start, steps[1..]);
    }
  }

  lemma {:induction false} RunCons(env: Timing, s: State, step: Step, rest: seq<Step>)
    ensures Run(env, s, [step] + rest) == Run(env, Apply(env, s, step), rest)
  {
    assert ([step] + rest)[1..] == rest;
  }

  lemma {:induction false} RunSplit(env: Timing, s: State, before: seq<Step>, after: seq<Step>)
    ensures Run(env, s, before + after) == Run(env, Run(env, s, before), after)
    decreases |before|
  {
    if before == [] {
      assert before + after == after;
    } else {
      assert (before + after)[1..] == before[1..] + after;
      RunSplit(env, Apply(env, s, before[0]), before[1..], after);
    }
  }

  // All other cycles can end at once.
  lemma {:induction false} EndOthers(env: Timing, s: State, w: Worker) returns (steps: seq<Step>)
    requires w in s.cycles
    ensures Keeps(w, steps)
    ensures var t := Run(env, s, steps);
            t.cycles == map[w := s.cycles[w]] && t.time == s.time && t.row == s.row && t.holders <= s.holders
    decreases |s.cycles|
  {
    if s.cycles.Keys - {w} == {} {
      assert s.cycles.Keys == {w};
      assert s.cycles == map[w := s.cycles[w]];
      return [];
    }
    var x :| x in s.cycles.Keys - {w};
    var t := Next(env, s, EndCycle(x));
    assert t.cycles.Keys == s.cycles.Keys - {x};
    assert |t.cycles.Keys| < |s.cycles.Keys|;
    var rest := EndOthers(env, t, w);
    RunCons(env, s, EndCycle(x), rest);
    return [EndCycle(x)] + rest;
  }

  lemma {:induction false} WaitAndClaim(env: Timing, s: State, v: Worker, w: Worker) returns (steps: seq<Step>)
    requires v != w && s.cycles.Keys == {w} && v !in s.holders
    requires s.cycles[w] <= s.time <= s.cycles[w] + env.limit(w)
    requires s.row.status == Aborted && HasHeld(s.row.reservations)
    requires s.row.expiresAt < s.cycles[w] + env.limit(w) + env.clock(v)
    ensures Keeps(w, steps) && v in Run(env, s, steps).claims
  {
    var wait := s.cycles[w] + env.limit(w) - s.time;
    var s1 := Next(env, s, Advance(wait));
    var s2 := Next(env, s1, StartCycle(v));
    var s3 := Next(env, s2, ClaimBy(v));
    RunCons(env, s, Advance(wait), [StartCycle(v)] + ([ClaimBy(v)] + []));
    RunCons(env, s1, StartCycle(v), [ClaimBy(v)] + []);
    RunCons(env, s2, ClaimBy(v), []);
    steps := [Advance(wait)] + ([StartCycle(v)] + ([ClaimBy(v)] + []));
  }

  /**
    The exact condition: an abort at `now` under the claim of w lets another worker v claim the
    upload before w's cycle ends if and only if the session was not aborted before, still holds
    quota, and `now` lies before the end of w's cycle as v's clock shows it.
   */
  lemma {:induction false} AbortLetsInIff(env: Timing, s: State, w: Worker, v: Worker, now: real)
    requires LeasesOutlast(env) && Inv(env, s) && w in s.claims && v != w && Enabled(env, s, Abort(now))
    ensures LetsIn(env, Next(env, s, Abort(now)), v, w) <==>
              && s.row.status != Aborted && HasHeld(s.row.reservations)
              && now < s.cycles[w] + env.limit(w) + env.clock(v)
  {
    var t := Next(env, s, Abort(now));
    assert LeaseCovers(env, s, w);
    assert env.clock(v) - env.clock(w) + env.limit(w) <= LEASE_SECONDS;
    if s.row.status != Aborted && HasHeld(s.row.reservations) && now < s.cycles[w] + env.limit(w) + env.clock(v) {
      var before := EndOthers(env, t, w);
      var after := WaitAndClaim(env, Run(env, t, before), v, w);
      RunSplit(env, t, before, after);
      assert Keeps(w, before + after) && v in Run(env, t, before + after).claims;
    } else {
      assert ShutOut(env, t, v, w, s.cycles[w]);
      forall steps | Keeps(w, steps) ensures v !in Run(env, t, steps).claims {
        ShutOutForGood(env, t, v, w, s.cycles[w], steps);
      }
    }
  }
}
