/**
  Runs of UploadSystem in real time: workers claim within cycles, by their own clocks. What the
  leases then ensure of outcomes, and when they keep two workers from holding an upload at once.
 */
module UploadSchedule {
  import opened Common
  import opened Quota
  import opened UploadRows
  import opened UploadSystem
  import opened UploadOutcomes
  import T = UploadTiming

  // `cycles` maps a running cycle to its start, `since` an open claim to its time.
  datatype State = State(time: real, db: Db, cycles: map<Worker, real>, since: map<Worker, real>)

  datatype Step =
    | Advance(seconds: real)
    | StartCycle(w: Worker)
    | EndCycle(w: Worker)      // the batch is done, or the limit cancels it
    | Do(op: Op)

  const START := State(0.0, EMPTY, map[], map[])

  // A worker's transactions happen within its cycles, a claim at the time its clock shows.
  predicate InCycle(env: T.Timing, s: State, op: Op) {
    match op
    case Claim(w, _, now) => w in s.cycles && now == s.time + env.clock(w)
    case Publish(w) => w in s.cycles
    case Settle(w, _) => w in s.cycles
    case Forget(w) => w in s.cycles
    case _ => true
  }

  predicate Enabled(env: T.Timing, s: State, step: Step) {
    match step
    case Advance(d) => 0.0 <= d && forall w :: w in s.cycles ==> s.time + d <= s.cycles[w] + env.limit(w)
    case StartCycle(w) => w !in s.cycles
    case EndCycle(w) => w in s.cycles
    case Do(op) => InCycle(env, s, op) && Commits(s.db, op)
  }

  // The transaction of a step, if it has one: the end of a cycle forgets the claim it held.
  function Transaction(s: State, step: Step): seq<Op> {
    match step
    case EndCycle(w) => if w in s.db.claims then [Forget(w)] else []
    case Do(op) => [op]
    case _ => []
  }

  function Next(env: T.Timing, s: State, step: Step): State
    requires Enabled(env, s, step)
  {
    match step
    case Advance(d) => s.(time := s.time + d)
    case StartCycle(w) => s.(cycles := s.cycles[w := s.time])
    case EndCycle(w) => s.(db := Apply(s.db, Forget(w)), cycles := s.cycles - {w}, since := s.since - {w})
    case Do(op) =>
      s.(db := Apply(s.db, op), since := if op.Claim? then s.since[op.w := s.time] else s.since)
  }

  function After(env: T.Timing, s: State, step: Step): State {
    if Enabled(env, s, step) then Next(env, s, step) else s
  }

  // The transactions of a run, in order.
  function Transactions(env: T.Timing, s: State, steps: seq<Step>): seq<Op>
    decreases |steps|
  {
    if steps == [] then []
    else
      (if Enabled(env, s, steps[0]) then Transaction(s, steps[0]) else [])
      + Transactions(env, After(env, s, steps[0]), steps[1..])
  }

  function End(env: T.Timing, s: State, steps: seq<Step>): State
    decreases |steps|
  {
    if steps == [] then s else End(env, After(env, s, steps[0]), steps[1..])
  }

  // Without time and cycles, a run is a run of its transactions.
  lemma {:induction false} TransactionsReach(env: T.Timing, s: State, steps: seq<Step>)
    ensures Run(s.db, Transactions(env, s, steps)) == End(env, s, steps).db
    decreases |steps|
  {
    if steps != [] {
      var rest := Transactions(env, After(env, s, steps[0]), steps[1..]);
      TransactionsReach(env, After(env, s, steps[0]), steps[1..]);
      assert [] + rest == rest;
      assert forall op :: ([op] + rest)[1..] == rest;
    }
  }

  // No session is aborted for the first time while a worker holds a claim of it.
  predicate NoAbortUnderClaim(env: T.Timing, s: State, steps: seq<Step>)
    decreases |steps|
  {
    steps == [] ||
    (&& (Enabled(env, s, steps[0]) ==> !AbortsUnderClaim(s, steps[0]))
     && NoAbortUnderClaim(env, After(env, s, steps[0]), steps[1..]))
  }

  predicate AbortsUnderClaim(s: State, step: Step) {
    && step.Do? && step.op.BeginAbort? && step.op.u < |s.db.uploads| && s.db.uploads[step.op.u].status != Aborted
    && exists w :: w in s.db.claims && s.db.claims[w].u == step.op.u
  }

  // An open claim belongs to a running cycle, and its lease is on the row.
  predicate LeaseHolds(env: T.Timing, s: State, w: Worker)
    requires w in s.db.claims
  {
    && w in s.cycles && w in s.since && s.cycles[w] <= s.since[w] <= s.time <= s.cycles[w] + env.limit(w)
    && s.db.claims[w].u < |s.db.uploads|
    && s.since[w] + env.clock(w) + LEASE_SECONDS <= s.db.uploads[s.db.claims[w].u].expiresAt
  }

  predicate Inv(env: T.Timing, s: State) {
    && (forall w :: w in s.cycles ==> s.cycles[w] <= s.time <= s.cycles[w] + env.limit(w))
    && (forall w :: w in s.db.claims ==> LeaseHolds(env, s, w))
  }

  /** While its cycle runs, a held upload is not claimable by another worker. */
  lemma {:induction false} HeldIsNotClaimable(env: T.Timing, s: State, w: Worker, v: Worker)
    requires T.LeasesOutlast(env) && Inv(env, s) && w in s.db.claims && v != w
    ensures var u := s.db.claims[w].u; u < |s.db.uploads| && !Claimable(s.db.uploads[u], s.time + env.clock(v))
  {
    assert LeaseHolds(env, s, w);
    assert env.clock(v) - env.clock(w) + env.limit(w) <= LEASE_SECONDS;
  }

  // Only the first abort of a session brings its deadline forward.
  lemma {:induction false} DeadlinesGrow(db: Db, op: Op, u: nat)
    requires Commits(db, op) && u < |db.uploads|
    requires !(op.BeginAbort? && op.u == u && db.uploads[u].status != Aborted)
    ensures u < |Apply(db, op).uploads| && db.uploads[u].expiresAt <= Apply(db, op).uploads[u].expiresAt
  {
  }

  // A transaction opens no claim but that of a Claim.
  lemma ClaimsKept(db: Db, op: Op, w: Worker)
    requires Commits(db, op) && w in Apply(db, op).claims && !(op.Claim? && op.w == w)
    ensures w in db.claims && Apply(db, op).claims[w] == db.claims[w]
  {
  }

  lemma {:induction false} DoKeepsInv(env: T.Timing, s: State, op: Op)
    requires Inv(env, s) && Enabled(env, s, Do(op)) && !AbortsUnderClaim(s, Do(op))
    ensures Inv(env, Next(env, s, Do(op)))
  {
    var t := Next(env, s, Do(op));
    forall w | w in t.db.claims ensures LeaseHolds(env, t, w) {
      if !(op.Claim? && op.w == w) {
        ClaimsKept(s.db, op, w);
        assert LeaseHolds(env, s, w);
        DeadlinesGrow(s.db, op, s.db.claims[w].u);
      }
    }
  }

  lemma {:induction false} StepKeepsInv(env: T.Timing, s: State, step: Step)
    requires env.Valid() && Inv(env, s) && Enabled(env, s, step) && !AbortsUnderClaim(s, step)
    ensures Inv(env, Next(env, s, step))
  {
    var t := Next(env, s, step);
    if step.Do? {
      DoKeepsInv(env, s, step.op);
    } else {
      forall w | w in t.db.claims ensures LeaseHolds(env, t, w) {
        assert LeaseHolds(env, s, w);
      }
    }
  }

  lemma {:induction false} ClaimFindsNone(env: T.Timing, s: State, w: Worker, u: nat, now: real)
    requires T.LeasesOutlast(env) && Inv(env, s) && Enabled(env, s, Do(Claim(w, u, now)))
    ensures forall v :: v in s.db.claims ==> s.db.claims[v].u != u
  {
    forall v | v in s.db.claims ensures s.db.claims[v].u != u {
      HeldIsNotClaimable(env, s, v, w);
    }
  }

  lemma {:induction false} HeldOnceCons(db: Db, op: Op, rest: seq<Op>)
    requires op.Claim? ==> forall v :: v in db.claims ==> db.claims[v].u != op.u
    requires HeldOnce(Apply(db, op), rest)
    ensures HeldOnce(db, [op] + rest)
  {
    assert ([op] + rest)[1..] == rest;
  }

  lemma {:induction false} HeldOnceFrom(env: T.Timing, s: State, steps: seq<Step>)
    requires env.Valid() && T.LeasesOutlast(env) && Inv(env, s) && NoAbortUnderClaim(env, s, steps)
    ensures HeldOnce(s.db, Transactions(env, s, steps))
    decreases |steps|
  {
    if steps != [] {
      var step, next := steps[0], After(env, s, steps[0]);
      var rest := Transactions(env, next, steps[1..]);
      if Enabled(env, s, step) {
        StepKeepsInv(env, s, step);
      }
      HeldOnceFrom(env, next, steps[1..]);
      var ops := if Enabled(env, s, step) then Transaction(s, step) else [];
      if ops == [] {
        assert ops + rest == rest;
      } else {
        if ops[0].Claim? {
          ClaimFindsNone(env, s, ops[0].w, ops[0].u, ops[0].now);
        }
        HeldOnceCons(s.db, ops[0], rest);
      }
    }
  }

  /**
    In every run in which leases outlast cycles and no session is aborted for the first time under
    a claim, no upload is held twice.
   */
  lemma {:induction false} ClocksHoldOnce(env: T.Timing, steps: seq<Step>)
    requires env.Valid() && T.LeasesOutlast(env) && NoAbortUnderClaim(env, START, steps)
    ensures HeldOnce(EMPTY, Transactions(env, START, steps))
  {
    HeldOnceFrom(env, START, steps);
  }

  // ---- outcomes, aborts included ----

  // A claim of a session that is not ABORTED: its lease is on the row, no other claim is of that
  // upload, and nobody has expired it if it was claimed while FINALIZING.
  predicate HoldsAlone(env: T.Timing, s: State, w: Worker)
    requires w in s.db.claims && s.db.claims[w].u < |s.db.uploads| && w in s.since
  {
    var g := s.db.claims[w];
    && s.since[w] + env.clock(w) + LEASE_SECONDS <= s.db.uploads[g.u].expiresAt
    && (forall v :: v in s.db.claims && s.db.claims[v].u == g.u ==> v == w)
    && (g.original == Finalizing ==> s.db.uploads[g.u].status != Expired)
  }

  predicate Guarded(env: T.Timing, s: State, w: Worker)
    requires w in s.db.claims
  {
    && w in s.cycles && w in s.since && s.cycles[w] <= s.since[w] <= s.time <= s.cycles[w] + env.limit(w)
    && s.db.claims[w].u < |s.db.uploads|
    && (s.db.uploads[s.db.claims[w].u].status == Aborted || HoldsAlone(env, s, w))
  }

  predicate AllGuarded(env: T.Timing, s: State) {
    && (forall w :: w in s.cycles ==> s.cycles[w] <= s.time <= s.cycles[w] + env.limit(w))
    && (forall w :: w in s.db.claims ==> Guarded(env, s, w))
  }

  // Another worker finds a session that is held and not ABORTED under its lease.
  lemma {:induction false} ClaimFindsNoneAlive(env: T.Timing, s: State, w: Worker, u: nat, now: real)
    requires T.LeasesOutlast(env) && AllGuarded(env, s) && Enabled(env, s, Do(Claim(w, u, now)))
    ensures s.db.uploads[u].status != Aborted ==> forall v :: v in s.db.claims ==> s.db.claims[v].u != u
  {
    forall v | s.db.uploads[u].status != Aborted && v in s.db.claims ensures s.db.claims[v].u != u {
      assert Guarded(env, s, v);
      assert env.clock(w) - env.clock(v) + env.limit(v) <= LEASE_SECONDS;
    }
  }

  // A session expires only by a claim of it, or by the settlement of one.
  lemma {:induction false} StaysUnexpired(db: Db, op: Op, u: nat)
    requires Commits(db, op) && u < |db.uploads| && db.uploads[u].status != Expired
    requires !(op.Claim? && op.u == u) && !(op.Settle? && db.claims[op.w].u == u)
    ensures u < |Apply(db, op).uploads| && Apply(db, op).uploads[u].status != Expired
  {
  }

  lemma {:induction false} AbortedStays(db: Db, op: Op, u: nat)
    requires Commits(db, op) && u < |db.uploads|
    ensures u < |Apply(db, op).uploads|
    ensures db.uploads[u].status == Aborted ==> Apply(db, op).uploads[u].status == Aborted
    ensures op.BeginAbort? && op.u == u ==> Apply(db, op).uploads[u].status == Aborted
  {
    StepExtends(db, op);
  }

  lemma {:induction false} NewClaimIsGuarded(env: T.Timing, s: State, w: Worker, u: nat, now: real)
    requires T.LeasesOutlast(env) && AllGuarded(env, s) && Enabled(env, s, Do(Claim(w, u, now)))
    ensures var t := Next(env, s, Do(Claim(w, u, now))); w in t.db.claims && Guarded(env, t, w)
  {
    var t := Next(env, s, Do(Claim(w, u, now)));
    ClaimFindsNoneAlive(env, s, w, u, now);
    assert t.db.claims == s.db.claims[w := Granted(u, s.db.uploads[u].status)];
    assert t.db.uploads == s.db.uploads[u := ClaimRow(s.db.uploads[u], now)];
  }

  lemma {:induction false} OldClaimStaysGuarded(env: T.Timing, s: State, op: Op, w: Worker)
    requires T.LeasesOutlast(env) && AllGuarded(env, s) && Enabled(env, s, Do(op))
    requires w in Next(env, s, Do(op)).db.claims && !(op.Claim? && op.w == w)
    ensures Guarded(env, Next(env, s, Do(op)), w)
  {
    var t := Next(env, s, Do(op));
    ClaimsKept(s.db, op, w);
    assert Guarded(env, s, w);
    var u := s.db.claims[w].u;
    AbortedStays(s.db, op, u);
    if t.db.uploads[u].status != Aborted {
      DeadlinesGrow(s.db, op, u);
      if op.Claim? {
        ClaimFindsNoneAlive(env, s, op.w, op.u, op.now);
      }
      assert op.Settle? && s.db.claims[op.w].u == u ==> op.w == w;
      if s.db.uploads[u].status != Expired {
        StaysUnexpired(s.db, op, u);
      }
      forall v | v in t.db.claims && t.db.claims[v].u == u ensures v == w {
        if !(op.Claim? && op.w == v) {
          ClaimsKept(s.db, op, v);
        }
      }
    }
  }

  lemma {:induction false} StepKeepsGuard(env: T.Timing, s: State, step: Step)
    requires env.Valid() && T.LeasesOutlast(env) && AllGuarded(env, s) && Enabled(env, s, step)
    ensures AllGuarded(env, Next(env, s, step))
  {
    var t := Next(env, s, step);
    forall w | w in t.db.claims ensures Guarded(env, t, w) {
      if step.Do? && step.op.Claim? && step.op.w == w {
        NewClaimIsGuarded(env, s, w, step.op.u, step.op.now);
      } else if step.Do? {
        OldClaimStaysGuarded(env, s, step.op, w);
      } else {
        assert Guarded(env, s, w);
      }
    }
  }

  lemma {:induction false} GuardedIsNotLate(env: T.Timing, s: State, op: Op)
    requires AllGuarded(env, s)
    ensures !LateRejection(s.db, op)
  {
    if op.Settle? && HasClaim(s.db, op.w) {
      assert Guarded(env, s, op.w);
    }
  }

  lemma {:induction false} NoLateRejectionFrom(env: T.Timing, s: State, steps: seq<Step>)
    requires env.Valid() && T.LeasesOutlast(env) && AllGuarded(env, s)
    ensures NoLateRejection(s.db, Transactions(env, s, steps))
    decreases |steps|
  {
    if steps != [] {
      var step, next := steps[0], After(env, s, steps[0]);
      var rest := Transactions(env, next, steps[1..]);
      if Enabled(env, s, step) {
        StepKeepsGuard(env, s, step);
      }
      NoLateRejectionFrom(env, next, steps[1..]);
      var ops := if Enabled(env, s, step) then Transaction(s, step) else [];
      if ops == [] {
        assert ops + rest == rest;
      } else {
        GuardedIsNotLate(env, s, ops[0]);
        assert (ops + rest)[0] == ops[0] && (ops + rest)[1..] == rest;
      }
    }
  }

  // ---- a lease that does not outlast its cycle ----

  lemma {:induction false} EndCons(env: T.Timing, s: State, step: Step, rest: seq<Step>)
    requires Enabled(env, s, step)
    ensures End(env, s, [step] + rest) == End(env, Next(env, s, step), rest)
  {
    assert ([step] + rest)[1..] == rest;
  }

  const ONE_FILE := [Spec(QUOTA, 1, None)]

  // An upload is initiated, and its completion request interrupted, long before w's clock reads now.
  function Interrupted(now: real): seq<Step> {
    [Do(Initiate(now - 1.0, ONE_FILE))] + ([Do(BeginFinalize(0, now - 1001.0))] + [])
  }

  lemma {:induction false} InterruptedEnd(env: T.Timing, now: real)
    ensures var t := End(env, START, Interrupted(now));
            && t == START.(db := t.db)
            && t.db.uploads == OneUpload(Finalizing, now - 1.0, Held) && t.db.claims == map[]
  {
    assert AdmitAll(map[], ONE_FILE) == AdmitAll(Admit(map[], ONE_FILE[0]).value, []);
    assert Reserve(ONE_FILE) == [Reservation(QUOTA, 1, Held)];
    var s1 := Next(env, START, Do(Initiate(now - 1.0, ONE_FILE)));
    var s2 := Next(env, s1, Do(BeginFinalize(0, now - 1001.0)));
    EndCons(env, START, Do(Initiate(now - 1.0, ONE_FILE)), [Do(BeginFinalize(0, now - 1001.0))] + []);
    EndCons(env, s1, Do(BeginFinalize(0, now - 1001.0)), []);
  }

  // w claims, and at the last moment of its cycle so does v.
  function ClaimTwice(env: T.Timing, w: Worker, v: Worker): seq<Step> {
    [StartCycle(w)] + ([Do(Claim(w, 0, env.clock(w)))] + ([Advance(env.limit(w))]
    + ([StartCycle(v)] + ([Do(Claim(v, 0, env.limit(w) + env.clock(v)))] + []))))
  }

  lemma {:induction false} ClaimTwiceEnd(env: T.Timing, s: State, w: Worker, v: Worker)
    requires env.Valid() && v != w && LEASE_SECONDS < env.clock(v) - env.clock(w) + env.limit(w)
    requires s == START.(db := s.db) && s.db.claims == map[]
    requires s.db.uploads == OneUpload(Finalizing, env.clock(w) - 1.0, Held)
    ensures var t := End(env, s, ClaimTwice(env, w, v));
            && w in t.cycles && v in t.cycles
            && t.db.claims == map[w := Granted(0, Finalizing), v := Granted(0, Finalizing)]
            && t.db.uploads == OneUpload(Finalizing, env.limit(w) + env.clock(v) + LEASE_SECONDS, Held)
  {
    var claimW, claimV := Do(Claim(w, 0, env.clock(w))), Do(Claim(v, 0, env.limit(w) + env.clock(v)));
    var s1 := Next(env, s, StartCycle(w));
    var s2 := Next(env, s1, claimW);
    assert s2.db.uploads == OneUpload(Finalizing, env.clock(w) + LEASE_SECONDS, Held);
    var s3 := Next(env, s2, Advance(env.limit(w)));
    var s4 := Next(env, s3, StartCycle(v));
    var s5 := Next(env, s4, claimV);
    EndCons(env, s4, claimV, []);
    EndCons(env, s3, StartCycle(v), [claimV] + []);
    EndCons(env, s2, Advance(env.limit(w)), [StartCycle(v)] + ([claimV] + []));
    EndCons(env, s1, claimW, [Advance(env.limit(w))] + ([StartCycle(v)] + ([claimV] + [])));
    EndCons(env, s, StartCycle(w), [claimW] + ([Advance(env.limit(w))] + ([StartCycle(v)] + ([claimV] + []))));
  }

  // w finds no object and lets the quota lapse; v has seen a mismatch and rejects.
  function SettleTwice(w: Worker, v: Worker): seq<Step> { [Do(Settle(w, false))] + ([Do(Settle(v, true))] + []) }

  lemma {:induction false} SettleTwiceEnd(env: T.Timing, s: State, w: Worker, v: Worker, expiresAt: real)
    requires v != w && w in s.cycles && v in s.cycles
    requires s.db.claims == map[w := Granted(0, Finalizing), v := Granted(0, Finalizing)]
    requires s.db.uploads == OneUpload(Finalizing, expiresAt, Held)
    ensures End(env, s, SettleTwice(w, v)).db.uploads == OneUpload(Failed, expiresAt, Lapsed)
  {
    LapsesUnderFirst(env, s, w, v, expiresAt);
    var s1 := Next(env, s, Do(Settle(w, false)));
    FailsUnderSecond(env, s1, v, expiresAt);
    EndCons(env, s, Do(Settle(w, false)), [Do(Settle(v, true))] + []);
    EndCons(env, s1, Do(Settle(v, true)), []);
  }

  lemma {:induction false} LapsesUnderFirst(env: T.Timing, s: State, w: Worker, v: Worker, expiresAt: real)
    requires v != w && w in s.cycles
    requires s.db.claims == map[w := Granted(0, Finalizing), v := Granted(0, Finalizing)]
    requires s.db.uploads == OneUpload(Finalizing, expiresAt, Held)
    ensures var t := Next(env, s, Do(Settle(w, false)));
            && t.db.uploads == OneUpload(Expired, expiresAt, Lapsed)
            && t.db.claims == map[v := Granted(0, Finalizing)] && t.cycles == s.cycles
  {
    assert SettleReservations([Reservation(QUOTA, 1, Held)], Lapsed) == [Reservation(QUOTA, 1, Lapsed)];
  }

  lemma {:induction false} FailsUnderSecond(env: T.Timing, s: State, v: Worker, expiresAt: real)
    requires v in s.cycles && s.db.claims == map[v := Granted(0, Finalizing)]
    requires s.db.uploads == OneUpload(Expired, expiresAt, Lapsed)
    ensures Next(env, s, Do(Settle(v, true))).db.uploads == OneUpload(Failed, expiresAt, Lapsed)
  {
    assert SettleReservations([Reservation(QUOTA, 1, Lapsed)], Released) == [Reservation(QUOTA, 1, Lapsed)];
  }

  lemma {:induction false} EndSplit(env: T.Timing, s: State, before: seq<Step>, after: seq<Step>)
    ensures End(env, s, before + after) == End(env, End(env, s, before), after)
    decreases |before|
  {
    if before == [] {
      assert before + after == after;
    } else {
      assert (before + after)[1..] == before[1..] + after;
      EndSplit(env, After(env, s, before[0]), before[1..], after);
    }
  }

  lemma {:induction false} ShortLeaseLapses(env: T.Timing, w: Worker, v: Worker) returns (steps: seq<Step>)
    requires env.Valid() && v != w && LEASE_SECONDS < env.clock(v) - env.clock(w) + env.limit(w)
    ensures !AlwaysReleased(EMPTY, Transactions(env, START, steps))
  {
    var first, second, third := Interrupted(env.clock(w)), ClaimTwice(env, w, v), SettleTwice(w, v);
    steps := first + (second + third);
    InterruptedEnd(env, env.clock(w));
    var s1 := End(env, START, first);
    ClaimTwiceEnd(env, s1, w, v);
    var s2 := End(env, s1, second);
    SettleTwiceEnd(env, s2, w, v, env.limit(w) + env.clock(v) + LEASE_SECONDS);
    EndSplit(env, START, first, second + third);
    EndSplit(env, s1, second, third);
    TransactionsReach(env, START, steps);
    var row := End(env, START, steps).db.uploads[0];
    assert row.status == Failed && row.reservations[0].status == Lapsed;
    assert !RowReleased(row);
    if AlwaysReleased(EMPTY, Transactions(env, START, steps)) {
      AlwaysReleasedAtEnd(EMPTY, Transactions(env, START, steps));
    }
  }

  ghost predicate ReleasedInEveryRun(env: T.Timing) {
    forall steps :: AlwaysReleased(EMPTY, Transactions(env, START, steps))
  }

  /**
    The clocks decide the outcome, whatever owners abort and when: FAILED and ABORTED mean released
    at every point of every timed run if and only if every lease outlasts its cycle on every other
    clock.
   */
  lemma {:induction false} ClocksDecideOutcomes(env: T.Timing)
    requires env.Valid()
    ensures ReleasedInEveryRun(env) <==> T.LeasesOutlast(env)
    ensures T.LeasesOutlast(env) ==> forall steps :: OutcomesReleased(End(env, START, steps).db)
  {
    if T.LeasesOutlast(env) {
      forall steps
        ensures AlwaysReleased(EMPTY, Transactions(env, START, steps)) && OutcomesReleased(End(env, START, steps).db)
      {
        var ops := Transactions(env, START, steps);
        NoLateRejectionFrom(env, START, steps);
        EveryRunConserves([]);
        ReleasedIffNoLateRejection(EMPTY, ops);
        AlwaysReleasedAtEnd(EMPTY, ops);
        TransactionsReach(env, START, steps);
      }
    } else {
      var v: Worker, w: Worker :| v != w && LEASE_SECONDS < env.clock(v) - env.clock(w) + env.limit(w);
      var steps := ShortLeaseLapses(env, w, v);
    }
  }
}
