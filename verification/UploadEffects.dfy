/**
  What each upload transaction leaves behind, in plain terms: statuses, reservations, counters and
  deadlines.
 */
module UploadEffects {
  import opened Common
  import opened Quota
  import opened UploadRows
  import opened UploadSystem
  import opened UploadDatabase

  // Every held reservation has got the outcome; the others are as they were.
  predicate Turned(before: seq<Reservation>, after: seq<Reservation>, outcome: ReservationStatus) {
    && |after| == |before|
    && (forall i :: 0 <= i < |before| ==> after[i].key == before[i].key && after[i].amount == before[i].amount)
    && (forall i :: 0 <= i < |before| ==>
                      after[i].status == if before[i].status == Held then outcome else before[i].status)
  }

  // For every counter, the held amount has left `reserved` and, if it is used, arrived in `used`.
  ghost predicate Moved(before: Counters, after: Counters, rs: seq<Reservation>, isUsed: bool) {
    forall key :: MovedOne(Get(before, key), Get(after, key), Amount(rs, key, Held), isUsed)
  }

  predicate MovedOne(before: Counter, after: Counter, amount: nat, isUsed: bool) {
    after.reserved + amount == before.reserved && after.used == before.used + if isUsed then amount else 0
  }

  // One row has got a status and its held quota an outcome; nothing else has changed.
  ghost predicate Settled(before: Db, after: Db, u: nat, status: SessionStatus, outcome: ReservationStatus) {
    && u < |before.uploads| == |after.uploads|
    && after.uploads[u].status == status
    && after.uploads[u].expiresAt == before.uploads[u].expiresAt
    && Turned(before.uploads[u].reservations, after.uploads[u].reservations, outcome)
    && Moved(before.counters, after.counters, before.uploads[u].reservations, outcome == Consumed)
    && (forall v :: 0 <= v < |before.uploads| && v != u ==> after.uploads[v] == before.uploads[v])
    && after.charged == before.charged && after.aborting == before.aborting
  }

  lemma {:induction false} SettlementEffect(db: Db, u: nat, status: SessionStatus, outcome: ReservationStatus)
    requires Inv(db) && u < |db.uploads| && outcome != Held
    ensures Settled(db, SettleUpload(db, u, status, outcome), u, status, outcome)
  {
    var row := db.uploads[u];
    forall key
      ensures MovedOne(Get(db.counters, key), Get(SettleCounters(db.counters, row.reservations, outcome), key),
                       Amount(row.reservations, key, Held), outcome == Consumed)
    {
      assert Balanced(db, key);
      TotalCovers(db.uploads, u, key, Held);
      SettleIsExact(db.counters, row.reservations, outcome, key);
    }
  }

  /** A publication completes a FINALIZING session and consumes its quota; any other row it leaves alone. */
  lemma {:induction false} PublicationEffect(db: Db, w: Worker)
    requires Inv(db) && Commits(db, Publish(w))
    ensures var u, after := db.claims[w].u, Apply(db, Publish(w));
            && (db.uploads[u].status == Finalizing ==> Settled(db, after, u, Completed, Consumed))
            && (db.uploads[u].status != Finalizing ==> after.uploads == db.uploads && after.counters == db.counters)
            && after.claims == db.claims - {w}
  {
    SettlementEffect(db, db.claims[w].u, Completed, Consumed);
  }

  /**
    The last transaction of an unpublished claim, however stale: a COMPLETED row stays as it is,
    an aborted session stays ABORTED, a rejected FINALIZING claim ends FAILED and any other
    claim EXPIRED.
   */
  lemma {:induction false} SettlementOfClaim(db: Db, w: Worker, rejected: bool)
    requires Inv(db) && Commits(db, Settle(w, rejected))
    ensures var g, after := db.claims[w], Apply(db, Settle(w, rejected));
            var status := db.uploads[g.u].status;
            && after.claims == db.claims - {w}
            && (status == Completed ==> after.uploads == db.uploads && after.counters == db.counters)
            && (status == Aborted ==> Settled(db, after, g.u, Aborted, Released))
            && (status in {Initiated, Finalizing, Failed, Expired} && g.original == Finalizing && rejected ==>
                  Settled(db, after, g.u, Failed, Released))
            && (status in {Initiated, Finalizing, Failed, Expired}
                && g.original in {Initiated, Finalizing, Expired} && !(g.original == Finalizing && rejected) ==>
                  Settled(db, after, g.u, Expired, Lapsed))
  {
    var u := db.claims[w].u;
    SettlementEffect(db, u, Aborted, Released);
    SettlementEffect(db, u, Failed, Released);
    SettlementEffect(db, u, Expired, Lapsed);
  }

  /** A completion request publishes and consumes. */
  lemma {:induction false} CompletionEffect(db: Db, u: nat)
    requires Inv(db) && Commits(db, Complete(u))
    ensures db.uploads[u].status == Finalizing && Settled(db, Apply(db, Complete(u)), u, Completed, Consumed)
  {
    SettlementEffect(db, u, Completed, Consumed);
  }

  /** A recorded rejection fails the session and releases. */
  lemma {:induction false} RejectionEffect(db: Db, u: nat)
    requires Inv(db) && Commits(db, Reject(u))
    ensures db.uploads[u].status == Finalizing && Settled(db, Apply(db, Reject(u)), u, Failed, Released)
  {
    SettlementEffect(db, u, Failed, Released);
  }

  /** The end of an abort request releases what the aborted session holds. */
  lemma {:induction false} AbortEffect(db: Db, u: nat)
    requires Inv(db) && Commits(db, FinishAbort(u))
    ensures db.uploads[u].status == Aborted && Settled(db, Apply(db, FinishAbort(u)), u, Aborted, Released)
  {
    SettlementEffect(db, u, Aborted, Released);
  }

  /** A begun finalisation can complete, and then everything is consumed. */
  lemma {:induction false} CompletionPass(db: Db, u: nat, now: real)
    requires Inv(db) && Commits(db, BeginFinalize(u, now))
    ensures var begun := Apply(db, BeginFinalize(u, now));
            Commits(begun, Complete(u)) && Ends(Apply(begun, Complete(u)).uploads[u], Completed, Consumed)
  {
    assert RowConsistent(db.uploads[u]);
    SettledEnds(BeginFinalizeRow(db.uploads[u], now), Completed, Consumed);
  }

  /** It can also be rejected, and then everything is released. */
  lemma {:induction false} RejectionPass(db: Db, u: nat, now: real)
    requires Inv(db) && Commits(db, BeginFinalize(u, now))
    ensures var begun := Apply(db, BeginFinalize(u, now));
            Commits(begun, Reject(u)) && Ends(Apply(begun, Reject(u)).uploads[u], Failed, Released)
  {
    assert RowConsistent(db.uploads[u]);
    SettledEnds(BeginFinalizeRow(db.uploads[u], now), Failed, Released);
  }

  /** A begun abort of a session that holds quota releases all of it. */
  lemma {:induction false} AbortPass(db: Db, u: nat, now: real)
    requires Inv(db) && Commits(db, BeginAbort(u, now)) && HasHeld(db.uploads[u].reservations)
    ensures var begun := Apply(db, BeginAbort(u, now));
            Commits(begun, FinishAbort(u)) && Ends(Apply(begun, FinishAbort(u)).uploads[u], Aborted, Released)
  {
    assert RowConsistent(db.uploads[u]);
    SettledEnds(BeginAbortRow(db.uploads[u], now), Aborted, Released);
  }

  /** An admitted upload starts INITIATED with every reservation held, and a charge is used at once. */
  lemma {:induction false} AdmissionEffect(
    db: Db, expiresAt: real, specs: seq<Spec>, key: CounterKey, amount: nat, limit: Option<nat>)
    ensures Commits(db, Initiate(expiresAt, specs)) ==>
              var after := Apply(db, Initiate(expiresAt, specs));
              && |after.uploads| == |db.uploads| + 1 && after.uploads[..|db.uploads|] == db.uploads
              && after.uploads[|db.uploads|].status == Initiated && after.uploads[|db.uploads|].expiresAt == expiresAt
              && HoldsSpecs(after.uploads[|db.uploads|].reservations, specs)
    ensures Commits(db, Charge(key, amount, limit)) ==>
              var after := Apply(db, Charge(key, amount, limit));
              && Get(after.counters, key).used == Get(db.counters, key).used + amount
              && Get(after.counters, key).reserved == Get(db.counters, key).reserved
              && after.uploads == db.uploads
              && (limit.Some? && 0 < amount ==>
                    Get(after.counters, key).used + Get(after.counters, key).reserved <= limit.value)
  {
  }

  predicate HoldsSpecs(rs: seq<Reservation>, specs: seq<Spec>) {
    |rs| == |specs|
    && forall i :: 0 <= i < |rs| ==>
                     rs[i].key == specs[i].key && rs[i].amount == specs[i].amount && rs[i].status == Held
  }

  predicate Ends(row: Upload, status: SessionStatus, outcome: ReservationStatus) {
    row.status == status && forall i :: 0 <= i < |row.reservations| ==> row.reservations[i].status == outcome
  }

  lemma SettledEnds(row: Upload, status: SessionStatus, outcome: ReservationStatus)
    requires AllIn(row.reservations, {Held})
    ensures Ends(SettleRow(row, status, outcome), status, outcome)
  {
  }

  /** How one undisturbed pass ends: by the status that it claims and what it finds in storage. */
  predicate PassEnds(original: SessionStatus, finding: Finding, row: Upload) {
    && (original == Finalizing && finding == Publishable ==> Ends(row, Completed, Consumed))
    && (original == Finalizing && finding == Mismatched ==> Ends(row, Failed, Released))
    && (original == Finalizing && finding == Missing ==> Ends(row, Expired, Lapsed))
    && (original in {Initiated, Expired} ==> Ends(row, Expired, Lapsed))
    && (original == Aborted ==> Ends(row, Aborted, Released))
  }

  lemma {:induction false} PassOutcome(db: Db, w: Worker, u: nat, now: real, finding: Finding)
    requires Inv(db) && Commits(db, Claim(w, u, now))
    ensures var original := db.uploads[u].status;
            var done := Apply(Apply(db, Claim(w, u, now)), Processing(w, original, finding));
            |done.uploads| == |db.uploads| && PassEnds(original, finding, done.uploads[u])
  {
    var original, claimed := db.uploads[u].status, Apply(db, Claim(w, u, now));
    AllHeld(db.uploads[u], now);
    assert claimed.claims[w] == Granted(u, original);
    ProcessingEnds(claimed, w, finding);
  }

  lemma AllHeld(row: Upload, now: real)
    requires RowConsistent(row) && Claimable(row, now)
    ensures AllIn(row.reservations, {Held})
  {
  }

  lemma {:induction false} ProcessingEnds(db: Db, w: Worker, finding: Finding)
    requires HasClaim(db, w) && AllIn(db.uploads[db.claims[w].u].reservations, {Held})
    requires db.claims[w].original in {Initiated, Finalizing, Aborted, Expired}
    requires db.uploads[db.claims[w].u].status
             == if db.claims[w].original == Initiated then Expired else db.claims[w].original
    ensures var u, done := db.claims[w].u, Apply(db, Processing(w, db.claims[w].original, finding));
            |done.uploads| == |db.uploads| && PassEnds(db.claims[w].original, finding, done.uploads[u])
  {
    var row := db.uploads[db.claims[w].u];
    SettledEnds(row, Completed, Consumed);
    SettledEnds(row, Failed, Released);
    SettledEnds(row, Expired, Lapsed);
    SettledEnds(row, Aborted, Released);
  }

  /** A worker may claim an overdue session that is open or still holds quota, and has it for 15 minutes. */
  lemma {:induction false} ClaimMeans(row: Upload, now: real, later: real)
    ensures Claimable(row, now) <==>
            && row.expiresAt < now
            && (row.status in {Initiated, Finalizing}
                || (row.status in {Aborted, Expired} && exists i :: 0 <= i < |row.reservations|
                                                                    && row.reservations[i].status == Held))
    ensures Claimable(row, now) ==>
              && ClaimRow(row, now).status == (if row.status == Initiated then Expired else row.status)
              && ClaimRow(row, now).reservations == row.reservations
    ensures Claimable(row, now) && later <= now + 900.0 ==> !Claimable(ClaimRow(row, now), later)
    ensures Claimable(row, now) && now + 900.0 < later && row.status != Initiated ==>
              Claimable(ClaimRow(row, now), later)
  {
  }

  /** A request may finalise a session being finalised, or an open one before its deadline, for 15 minutes or more. */
  lemma {:induction false} FinalizeMeans(row: Upload, now: real, later: real)
    ensures CanBeginFinalize(row, now) <==> row.status == Finalizing || (row.status == Initiated && now < row.expiresAt)
    ensures CanBeginFinalize(row, now) ==>
              BeginFinalizeRow(row, now).status == Finalizing
              && BeginFinalizeRow(row, now).reservations == row.reservations
    ensures CanBeginFinalize(row, now) ==>
              (Claimable(BeginFinalizeRow(row, now), later) <==> now + 900.0 < later && row.expiresAt < later)
  {
  }

  /** Neither COMPLETED nor EXPIRED sessions can be aborted; a first abort makes held quota claimable at once. */
  lemma {:induction false} AbortMeans(row: Upload, now: real, later: real)
    ensures CanBeginAbort(row) <==>
              row.status in {Initiated, Finalizing, Failed} || (row.status == Aborted && HasHeld(row.reservations))
    ensures row.status == Aborted ==> BeginAbortRow(row, now) == row
    ensures row.status != Aborted ==>
              BeginAbortRow(row, now).status == Aborted && BeginAbortRow(row, now).reservations == row.reservations
    ensures row.status != Aborted && HasHeld(row.reservations) ==>
              (Claimable(BeginAbortRow(row, now), later) <==> now < later)
  {
  }
}
