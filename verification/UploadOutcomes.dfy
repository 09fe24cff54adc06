/**
  What the status of a session says about its reservations, over the runs of UploadSystem.
 */
module UploadOutcomes {
  import opened Common
  import opened Quota
  import opened UploadRows
  import opened UploadSystem

  // What the statuses promise: FAILED has released everything, ABORTED has or still holds it.
  predicate RowReleased(u: Upload) {
    && (u.status == Failed ==> AllIn(u.reservations, {Released}))
    && (u.status == Aborted ==> AllIn(u.reservations, {Held, Released}))
  }

  predicate OutcomesReleased(db: Db) { forall u :: 0 <= u < |db.uploads| ==> RowReleased(db.uploads[u]) }

  lemma RowReleases(db: Db, u: nat, row: Upload)
    requires OutcomesReleased(db) && u < |db.uploads|
    ensures OutcomesReleased(SetRow(db, u, row)) <==> RowReleased(row)
  {
    assert RowReleased(row) ==> forall v :: 0 <= v < |db.uploads| ==> RowReleased(SetRow(db, u, row).uploads[v]);
    assert SetRow(db, u, row).uploads[u] == row;
  }

  predicate HasLapsed(rs: seq<Reservation>) { exists i :: 0 <= i < |rs| && rs[i].status == Lapsed }

  // A rejecting settlement of a claim of FINALIZING that finds the row expired, its quota lapsed.
  predicate LateRejection(db: Db, op: Op) {
    && op.Settle? && HasClaim(db, op.w) && db.claims[op.w].original == Finalizing && op.rejected
    && db.uploads[db.claims[op.w].u].status == Expired && HasLapsed(db.uploads[db.claims[op.w].u].reservations)
  }

  lemma {:induction false} SettledReleases(db: Db, w: Worker, rejected: bool)
    requires Inv(db) && OutcomesReleased(db) && HasClaim(db, w)
    ensures OutcomesReleased(Commit(db, Settle(w, rejected))) <==> !LateRejection(db, Settle(w, rejected))
  {
    var g := db.claims[w];
    var row := db.uploads[g.u];
    assert RowConsistent(row) && RowReleased(row);
    if row.status != Completed {
      var done := SettleRow(row, SettledStatus(row, g.original, rejected), SettledOutcome(row, g.original, rejected));
      RowReleases(db, g.u, done);
      if LateRejection(db, Settle(w, rejected)) {
        var i :| 0 <= i < |row.reservations| && row.reservations[i].status == Lapsed;
        assert done.reservations[i].status == Lapsed;
      } else {
        assert forall i :: 0 <= i < |row.reservations| ==> done.reservations[i].status == Lapsed ==>
               done.status == Expired;
      }
    }
  }

  /** A transaction breaks the promise exactly when it is a late rejection. */
  lemma {:induction false} StepReleasesIff(db: Db, op: Op)
    requires Inv(db) && OutcomesReleased(db) && Commits(db, op)
    ensures OutcomesReleased(Commit(db, op)) <==> !LateRejection(db, op)
  {
    match op
    case Settle(w, rejected) => SettledReleases(db, w, rejected);
    case Initiate(_, _) =>
    case Charge(_, _, _) =>
    case Forget(_) =>
    case BeginFinalize(u, now) => RowReleases(db, u, BeginFinalizeRow(db.uploads[u], now));
    case BeginAbort(u, now) =>
      assert RowConsistent(db.uploads[u]) && RowReleased(db.uploads[u]);
      RowReleases(db, u, BeginAbortRow(db.uploads[u], now));
    case Claim(_, u, now) =>
      assert RowReleased(db.uploads[u]);
      RowReleases(db, u, ClaimRow(db.uploads[u], now));
    case Complete(u) => RowReleases(db, u, SettleRow(db.uploads[u], Completed, Consumed));
    case Publish(w) => RowReleases(db, db.claims[w].u, SettleRow(db.uploads[db.claims[w].u], Completed, Consumed));
    case Reject(u) =>
      assert RowConsistent(db.uploads[u]);
      RowReleases(db, u, SettleRow(db.uploads[u], Failed, Released));
    case FinishAbort(u) =>
      assert RowConsistent(db.uploads[u]) && RowReleased(db.uploads[u]);
      RowReleases(db, u, SettleRow(db.uploads[u], db.uploads[u].status, Released));
  }

  // At every point of a run.
  predicate AlwaysReleased(db: Db, ops: seq<Op>)
    decreases |ops|
  {
    OutcomesReleased(db) && (ops == [] || AlwaysReleased(Apply(db, ops[0]), ops[1..]))
  }

  predicate NoLateRejection(db: Db, ops: seq<Op>)
    decreases |ops|
  {
    ops == [] || (!LateRejection(db, ops[0]) && NoLateRejection(Apply(db, ops[0]), ops[1..]))
  }

  /** FAILED and ABORTED mean released throughout a run exactly when it contains no late rejection. */
  lemma {:induction false} ReleasedIffNoLateRejection(db: Db, ops: seq<Op>)
    requires Inv(db) && OutcomesReleased(db)
    ensures AlwaysReleased(db, ops) <==> NoLateRejection(db, ops)
    decreases |ops|
  {
    if ops != [] {
      if Commits(db, ops[0]) {
        StepReleasesIff(db, ops[0]);
      }
      if OutcomesReleased(Apply(db, ops[0])) {
        StepKeepsInv(db, ops[0]);
        ReleasedIffNoLateRejection(Apply(db, ops[0]), ops[1..]);
      }
    }
  }

  // No upload is claimed while another worker still acts on a claim of it. UploadTiming says when
  // the leases ensure this.
  predicate HeldOnce(db: Db, ops: seq<Op>)
    decreases |ops|
  {
    ops == [] ||
    (&& (ops[0].Claim? && Commits(db, ops[0]) ==> forall v :: v in db.claims ==> db.claims[v].u != ops[0].u)
     && HeldOnce(Apply(db, ops[0]), ops[1..]))
  }

  // Claims of different workers are of different uploads, and nobody expires a session that was
  // claimed while FINALIZING.
  predicate Single(uploads: seq<Upload>, claims: map<Worker, Granted>) {
    && (forall v, w :: v in claims && w in claims && claims[v].u == claims[w].u ==> v == w)
    && (forall w :: w in claims && claims[w].original == Finalizing ==>
          claims[w].u < |uploads| && uploads[claims[w].u].status != Expired)
  }

  predicate SingleClaims(db: Db) { Single(db.uploads, db.claims) }

  lemma RowKeepsSingle(uploads: seq<Upload>, claims: map<Worker, Granted>, u: nat, row: Upload)
    requires Single(uploads, claims) && u < |uploads|
    requires row.status == Expired ==> forall w :: w in claims && claims[w].u == u ==> claims[w].original != Finalizing
    ensures Single(uploads[u := row], claims)
  {
  }

  lemma ClaimKeepsSingle(uploads: seq<Upload>, claims: map<Worker, Granted>, w: Worker, u: nat)
    requires Single(uploads, claims) && u < |uploads| && forall v :: v in claims ==> claims[v].u != u
    ensures Single(uploads, claims[w := Granted(u, uploads[u].status)])
  {
  }

  lemma {:induction false} EndKeepsSingle(db: Db, w: Worker, row: Upload)
    requires SingleClaims(db) && HasClaim(db, w)
    ensures Single(db.uploads[db.claims[w].u := row], db.claims - {w}) && Single(db.uploads, db.claims - {w})
  {
    RowKeepsSingle(db.uploads, db.claims - {w}, db.claims[w].u, row);
  }

  lemma {:induction false} StepKeepsSingleClaims(db: Db, op: Op)
    requires SingleClaims(db) && Commits(db, op)
    requires op.Claim? ==> forall v :: v in db.claims ==> db.claims[v].u != op.u
    ensures SingleClaims(Commit(db, op)) && !LateRejection(db, op)
  {
    match op
    case Initiate(_, _) =>
    case Charge(_, _, _) =>
    case Forget(_) =>
    case BeginFinalize(u, now) => RowKeepsSingle(db.uploads, db.claims, u, BeginFinalizeRow(db.uploads[u], now));
    case Complete(u) => RowKeepsSingle(db.uploads, db.claims, u, SettleRow(db.uploads[u], Completed, Consumed));
    case Reject(u) => RowKeepsSingle(db.uploads, db.claims, u, SettleRow(db.uploads[u], Failed, Released));
    case BeginAbort(u, now) => RowKeepsSingle(db.uploads, db.claims, u, BeginAbortRow(db.uploads[u], now));
    case FinishAbort(u) => RowKeepsSingle(db.uploads, db.claims, u,
      SettleRow(db.uploads[u], db.uploads[u].status, Released));
    case Claim(w, u, now) =>
      ClaimKeepsSingle(db.uploads, db.claims, w, u);
      RowKeepsSingle(db.uploads, db.claims[w := Granted(u, db.uploads[u].status)], u, ClaimRow(db.uploads[u], now));
    case Publish(w) => EndKeepsSingle(db, w, SettleRow(db.uploads[db.claims[w].u], Completed, Consumed));
    case Settle(w, rejected) =>
      var g := db.claims[w];
      var row := db.uploads[g.u];
      EndKeepsSingle(db, w,
        SettleRow(row, SettledStatus(row, g.original, rejected), SettledOutcome(row, g.original, rejected)));
  }

  lemma {:induction false} HeldOnceHasNoLateRejection(db: Db, ops: seq<Op>)
    requires Inv(db) && SingleClaims(db) && HeldOnce(db, ops)
    ensures NoLateRejection(db, ops)
    decreases |ops|
  {
    if ops != [] {
      StepKeepsInv(db, ops[0]);
      if Commits(db, ops[0]) {
        StepKeepsSingleClaims(db, ops[0]);
      }
      HeldOnceHasNoLateRejection(Apply(db, ops[0]), ops[1..]);
    }
  }

  lemma {:induction false} AlwaysReleasedAtEnd(db: Db, ops: seq<Op>)
    requires AlwaysReleased(db, ops)
    ensures OutcomesReleased(Run(db, ops))
    decreases |ops|
  {
    if ops != [] {
      AlwaysReleasedAtEnd(Apply(db, ops[0]), ops[1..]);
    }
  }

  /** In every run in which no upload is held twice, FAILED and ABORTED mean released. */
  lemma {:induction false} ReleasedWhenHeldOnce(ops: seq<Op>)
    requires HeldOnce(EMPTY, ops)
    ensures AlwaysReleased(EMPTY, ops) && OutcomesReleased(Run(EMPTY, ops))
  {
    EveryRunConserves([]);
    HeldOnceHasNoLateRejection(EMPTY, ops);
    ReleasedIffNoLateRejection(EMPTY, ops);
    AlwaysReleasedAtEnd(EMPTY, ops);
  }

  // What holds of a row in every run.
  ghost predicate OutcomeMatches(row: Upload) {
    forall i :: 0 <= i < |row.reservations| ==>
                  var status := row.reservations[i].status;
                  && (row.status == Completed <==> status == Consumed)
                  && (row.status in {Initiated, Finalizing} ==> status == Held)
                  && (row.status == Failed ==> status != Held)
                  && (status == Held ==> forall now :: row.expiresAt < now ==> Claimable(row, now))
  }

  /**
    COMPLETED and CONSUMED imply each other; FAILED and ABORTED mean released, or still HELD in an
    aborted session, unless some upload was held by two workers at once; and HELD always lies
    within the claim query's reach.
   */
  lemma {:induction false} OutcomeMatchesSession(ops: seq<Op>)
    ensures var db := Run(EMPTY, ops);
            forall u :: 0 <= u < |db.uploads| ==>
              OutcomeMatches(db.uploads[u]) && (HeldOnce(EMPTY, ops) ==> RowReleased(db.uploads[u]))
  {
    EveryRunConserves(ops);
    var db := Run(EMPTY, ops);
    forall u | 0 <= u < |db.uploads| ensures OutcomeMatches(db.uploads[u]) {
      assert RowConsistent(db.uploads[u]);
    }
    if HeldOnce(EMPTY, ops) {
      ReleasedWhenHeldOnce(ops);
    }
  }

  const QUOTA := CounterKey(0, "file_count", 0)

  // An upload of one file whose completion request is interrupted. Two workers claim the session,
  // the second before the first is done with it. The first finds no object and lets the quota
  // lapse; the second has seen a mismatch and rejects.
  const INTERRUPTED := [Initiate(100.0, [Spec(QUOTA, 1, None)]), BeginFinalize(0, 50.0)]
  const HELD_TWICE := INTERRUPTED + [Claim(0, 0, 1000.0)] + [Claim(1, 0, 2000.0)] + [Settle(0, false)]
    + [Settle(1, true)]

  function OneUpload(status: SessionStatus, expiresAt: real, reservation: ReservationStatus): seq<Upload> {
    [Upload(status, expiresAt, [Reservation(QUOTA, 1, reservation)])]
  }

  lemma {:induction false} InterruptedState()
    ensures var db := Run(EMPTY, INTERRUPTED); db.uploads == OneUpload(Finalizing, 950.0, Held) && db.claims == map[]
  {
    var specs := [Spec(QUOTA, 1, None)];
    RunTwo(EMPTY, INTERRUPTED[0], INTERRUPTED[1]);
    assert AdmitAll(map[], specs) == AdmitAll(Admit(map[], specs[0]).value, []);
    assert Reserve(specs) == [Reservation(QUOTA, 1, Held)];
  }

  lemma ClaimedTwice(db: Db)
    requires db.uploads == OneUpload(Finalizing, 950.0, Held) && db.claims == map[]
    ensures var end := Apply(Apply(db, Claim(0, 0, 1000.0)), Claim(1, 0, 2000.0));
            && end.uploads == OneUpload(Finalizing, 2900.0, Held)
            && end.claims == map[0 := Granted(0, Finalizing), 1 := Granted(0, Finalizing)]
  {
  }

  lemma {:induction false} SettledTwice(db: Db)
    requires db.uploads == OneUpload(Finalizing, 2900.0, Held)
    requires db.claims == map[0 := Granted(0, Finalizing), 1 := Granted(0, Finalizing)]
    ensures Apply(Apply(db, Settle(0, false)), Settle(1, true)).uploads == OneUpload(Failed, 2900.0, Lapsed)
  {
    var held, lapsed := [Reservation(QUOTA, 1, Held)], [Reservation(QUOTA, 1, Lapsed)];
    assert SettleReservations(held, Lapsed) == lapsed && SettleReservations(lapsed, Released) == lapsed;
  }

  /** Held twice, a session can end FAILED, and after an abort ABORTED, with EXPIRED reservations. */
  lemma {:induction false} HeldTwiceMayLapse()
    ensures Run(EMPTY, HELD_TWICE).uploads == OneUpload(Failed, 2900.0, Lapsed)
    ensures Run(EMPTY, HELD_TWICE + [BeginAbort(0, 3000.0)]).uploads == OneUpload(Aborted, 3000.0, Lapsed)
  {
    InterruptedState();
    var db := Run(EMPTY, INTERRUPTED);
    ClaimedTwice(db);
    SettledTwice(Apply(Apply(db, Claim(0, 0, 1000.0)), Claim(1, 0, 2000.0)));
    RunSnoc(EMPTY, INTERRUPTED, Claim(0, 0, 1000.0));
    RunSnoc(EMPTY, INTERRUPTED + [Claim(0, 0, 1000.0)], Claim(1, 0, 2000.0));
    RunSnoc(EMPTY, INTERRUPTED + [Claim(0, 0, 1000.0)] + [Claim(1, 0, 2000.0)], Settle(0, false));
    RunSnoc(EMPTY, INTERRUPTED + [Claim(0, 0, 1000.0)] + [Claim(1, 0, 2000.0)] + [Settle(0, false)], Settle(1, true));
    RunSnoc(EMPTY, HELD_TWICE, BeginAbort(0, 3000.0));
  }
}
