/**
  The transactions of app/services/quota.py and app/maintenance.py as they update the tables in
  place, proved against the operations of UploadSystem.
 */
module UploadDatabase {
  import opened Common
  import opened Quota
  import opened UploadRows
  import opened UploadSystem

  // What a worker found in object storage for a FINALIZING claim.
  datatype Finding = Publishable | Mismatched | Missing

  predicate OldestClaimable(uploads: seq<Upload>, u: nat, now: real) {
    && u < |uploads| && Claimable(uploads[u], now)
    && (forall v :: 0 <= v < |uploads| && Claimable(uploads[v], now) ==> uploads[u].expiresAt <= uploads[v].expiresAt)
  }

  predicate NoneClaimable(uploads: seq<Upload>, now: real) {
    forall v :: 0 <= v < |uploads| ==> !Claimable(uploads[v], now)
  }

  // Neither claimable now nor at any later time.
  predicate Finished(u: Upload) {
    u.status in {Completed, Failed, Aborted, Expired} && !HasHeld(u.reservations)
  }

  function Processing(w: Worker, original: SessionStatus, finding: Finding): Op {
    if original == Finalizing && finding == Publishable then Publish(w) else Settle(w, finding == Mismatched)
  }

  /** A claim followed by its processing finishes that row, ends the claim and touches no other. */
  lemma {:induction false} PassFinishes(db: Db, w: Worker, u: nat, now: real, finding: Finding)
    requires Inv(db) && Commits(db, Claim(w, u, now))
    ensures var done := Apply(Apply(db, Claim(w, u, now)), Processing(w, db.uploads[u].status, finding));
            && Inv(done) && |done.uploads| == |db.uploads| && done.claims == db.claims
            && Finished(done.uploads[u])
            && (forall v :: 0 <= v < |db.uploads| && v != u ==> done.uploads[v] == db.uploads[v])
  {
    var claimed := Apply(db, Claim(w, u, now));
    StepKeepsInv(db, Claim(w, u, now));
    StepKeepsInv(claimed, Processing(w, db.uploads[u].status, finding));
    assert claimed.claims[w] == Granted(u, db.uploads[u].status);
    ProcessingFinishes(claimed, w, finding);
    assert claimed.claims - {w} == db.claims;
  }

  // One session has become COMPLETED and its held quota CONSUMED.
  predicate Published(before: seq<Upload>, after: seq<Upload>, u: nat) {
    && u < |before| == |after| && after[u].status == Completed
    && |after[u].reservations| == |before[u].reservations|
    && (forall i :: 0 <= i < |before[u].reservations| && before[u].reservations[i].status == Held ==>
                      after[u].reservations[i] == before[u].reservations[i].(status := Consumed))
  }

  // The row that a worker has just claimed.
  predicate JustClaimed(row: Upload, original: SessionStatus) {
    row.status != Completed && (original == Finalizing ==> row.status == Finalizing)
  }

  lemma {:induction false} ProcessingFinishes(db: Db, w: Worker, finding: Finding)
    requires HasClaim(db, w) && JustClaimed(db.uploads[db.claims[w].u], db.claims[w].original)
    ensures var u, done := db.claims[w].u, Apply(db, Processing(w, db.claims[w].original, finding));
            && |done.uploads| == |db.uploads| && done.claims == db.claims - {w}
            && Finished(done.uploads[u])
            && (forall v :: 0 <= v < |db.uploads| && v != u ==> done.uploads[v] == db.uploads[v])
  {
    NothingHeld(db.uploads[db.claims[w].u].reservations, Consumed);
    NothingHeld(db.uploads[db.claims[w].u].reservations, Released);
    NothingHeld(db.uploads[db.claims[w].u].reservations, Lapsed);
  }

  lemma NothingHeld(rs: seq<Reservation>, outcome: ReservationStatus)
    requires outcome != Held
    ensures !HasHeld(SettleReservations(rs, outcome))
  {
  }

  class Database {
    var uploads: seq<Upload>
    var counters: Counters
    var charged: map<CounterKey, nat>
    var aborting: set<nat>
    var claims: map<Worker, Granted>

    constructor ()
      ensures Snapshot() == EMPTY
    {
      uploads, counters, charged, aborting, claims := [], map[], map[], {}, map[];
    }

    function Snapshot(): Db
      reads this
    {
      Db(uploads, counters, charged, aborting, claims)
    }

    // reserve_many and the row insert, in one transaction.
    method Initiate(expiresAt: real, specs: seq<Spec>) returns (admitted: bool)
      modifies this
      ensures admitted <==> AdmitAll(old(counters), specs).Some?
      ensures Snapshot() == Apply(old(Snapshot()), Op.Initiate(expiresAt, specs))
    {
      var pending := counters;
      var i := 0;
      while i < |specs|
        invariant 0 <= i <= |specs|
        invariant counters == old(counters) && Snapshot() == old(Snapshot())
        invariant AdmitAll(pending, specs[i..]) == AdmitAll(counters, specs)
      {
        var next := Admit(pending, specs[i]);
        assert specs[i..][1..] == specs[i + 1..];
        if next.None? {
          return false;
        }
        pending := next.value;
        i := i + 1;
      }
      counters := pending;
      uploads := uploads + [Upload(Initiated, expiresAt, Reserve(specs))];
      return true;
    }

    // consume_upload_reservations and release_upload_reservations differ only in the outcome.
    method SettleHeld(u: nat, outcome: ReservationStatus)
      requires u < |uploads| && outcome != Held
      modifies this`uploads, this`counters
      ensures counters == SettleCounters(old(counters), old(uploads[u].reservations), outcome)
      ensures uploads
              == old(uploads)[u := old(uploads[u]).(reservations := SettleReservations(old(uploads[u].reservations),
              outcome))]
    {
      var rs := uploads[u].reservations;
      var out: seq<Reservation> := [];
      var i := 0;
      while i < |rs|
        invariant 0 <= i <= |rs| && uploads == old(uploads)
        invariant SettleCounters(counters, rs[i..], outcome) == SettleCounters(old(counters), rs, outcome)
        invariant out == SettleReservations(rs, outcome)[..i]
      {
        assert rs[i..][1..] == rs[i + 1..] && rs[i..][0] == rs[i];
        SettleCounter(rs[i], outcome);
        out := out + [if rs[i].status == Held then rs[i].(status := outcome) else rs[i]];
        i := i + 1;
      }
      assert rs[i..] == [] && out == SettleReservations(rs, outcome);
      uploads := uploads[u := uploads[u].(reservations := out)];
    }

    method SettleCounter(r: Reservation, outcome: ReservationStatus)
      modifies this`counters
      ensures counters == SettleOne(old(counters), r, outcome)
    {
      if r.status == Held {
        var c := Get(counters, r.key);
        var reserved := if c.reserved < r.amount then 0 else c.reserved - r.amount;
        var used := if outcome == Consumed then c.used + r.amount else c.used;
        counters := counters[r.key := Counter(used, reserved)];
      }
    }

    // claim_next: the expired row with the oldest deadline, leased for 15 minutes.
    method ClaimNext(w: Worker, now: real) returns (claim: Option<Granted>)
      requires w !in claims
      modifies this`uploads, this`claims
      ensures claim.None? ==> NoneClaimable(old(uploads), now) && Snapshot() == old(Snapshot())
      ensures claim.Some? ==>
                && OldestClaimable(old(uploads), claim.value.u, now)
                && claim.value.original == old(uploads)[claim.value.u].status
                && Commits(old(Snapshot()), Claim(w, claim.value.u, now))
                && Snapshot() == Apply(old(Snapshot()), Claim(w, claim.value.u, now))
    {
      claim := None;
      var v := 0;
      while v < |uploads|
        invariant 0 <= v <= |uploads| && uploads == old(uploads)
        invariant claim.None? ==> NoneClaimable(uploads[..v], now)
        invariant claim.Some? ==>
                  OldestClaimable(uploads[..v], claim.value.u, now)
                  && claim.value.original == uploads[claim.value.u].status
      {
        assert uploads[..v + 1][..v] == uploads[..v] && uploads[..v + 1][v] == uploads[v];
        if Claimable(uploads[v], now) && (claim.None? || uploads[v].expiresAt < uploads[claim.value.u].expiresAt) {
          claim := Some(Granted(v, uploads[v].status));
        }
        v := v + 1;
      }
      assert uploads[..v] == uploads;
      if claim.Some? {
        uploads := uploads[claim.value.u := ClaimRow(uploads[claim.value.u], now)];
        claims := claims[w := claim.value];
      }
    }

    // The re-lock that publishes a reconciled upload.
    method PublishReconciled(w: Worker) returns (published: bool)
      requires HasClaim(Snapshot(), w) && claims[w].original == Finalizing
      modifies this`uploads, this`counters, this`claims
      ensures published <==> old(uploads[claims[w].u].status) == Finalizing
      ensures published ==> Published(old(uploads), uploads, old(claims[w].u))
      ensures Snapshot() == Apply(old(Snapshot()), Publish(w))
    {
      var u := claims[w].u;
      claims := claims - {w};
      if uploads[u].status != Finalizing {
        return false;
      }
      SettleHeld(u, Consumed);
      uploads := uploads[u := uploads[u].(status := Completed)];
      return true;
    }

    // The re-lock that ends a claim whose upload was not published.
    method FinishClaim(w: Worker, rejected: bool)
      requires HasClaim(Snapshot(), w)
      modifies this`uploads, this`counters, this`claims
      ensures Snapshot() == Apply(old(Snapshot()), Settle(w, rejected))
    {
      var g := claims[w];
      var row := uploads[g.u];
      claims := claims - {w};
      if row.status == Completed {
        return;
      }
      SettleHeld(g.u, SettledOutcome(row, g.original, rejected));
      uploads := uploads[g.u := uploads[g.u].(status := SettledStatus(row, g.original, rejected))];
    }

    // What a worker does with a claim once it has looked at the stored object.
    method ProcessClaim(w: Worker, finding: Finding)
      requires HasClaim(Snapshot(), w)
      modifies this`uploads, this`counters, this`claims
      ensures Snapshot() == Apply(old(Snapshot()), Processing(w, old(claims[w].original), finding))
    {
      if claims[w].original == Finalizing && finding == Publishable {
        var _ := PublishReconciled(w);
      } else {
        FinishClaim(w, finding == Mismatched);
      }
    }

    /**
      One cleanup batch that nothing interrupts. The clock readings and the storage findings are
      inputs. No upload is claimed twice, every claimed upload ends with no quota held and
      beyond any later claim, and a short batch means that nothing was left to claim.
     */
    method CleanupExpiredUploads(w: Worker, batchSize: nat, clock: nat -> real, findings: nat -> Finding)
      returns (claimed: seq<nat>, ghost trace: seq<Op>)
      requires Inv(Snapshot()) && w !in claims
      modifies this`uploads, this`counters, this`claims
      ensures claims == old(claims)
      ensures Inv(Snapshot()) && Snapshot() == Run(old(Snapshot()), trace)
      ensures |uploads| == |old(uploads)| && |claimed| <= batchSize
      ensures forall i, j :: 0 <= i < j < |claimed| ==> claimed[i] != claimed[j]
      ensures forall i :: 0 <= i < |claimed| ==> claimed[i] < |uploads| && Finished(uploads[claimed[i]])
      ensures forall u :: 0 <= u < |uploads| && u !in claimed ==> uploads[u] == old(uploads)[u]
      ensures |claimed| < batchSize ==> NoneClaimable(uploads, clock(|claimed|))
    {
      claimed, trace := [], [];
      while |claimed| < batchSize
        invariant claims == old(claims)
        invariant Inv(Snapshot()) && Snapshot() == Run(old(Snapshot()), trace)
        invariant |uploads| == |old(uploads)| && |claimed| <= batchSize
        invariant forall i, j :: 0 <= i < j < |claimed| ==> claimed[i] != claimed[j]
        invariant forall i :: 0 <= i < |claimed| ==> claimed[i] < |uploads| && Finished(uploads[claimed[i]])
        invariant forall u :: 0 <= u < |uploads| && u !in claimed ==> uploads[u] == old(uploads)[u]
        decreases batchSize - |claimed|
      {
        var now, finding := clock(|claimed|), findings(|claimed|);
        ghost var before := Snapshot();
        var g := ClaimAndProcess(w, now, finding);
        if g.None? {
          return;
        }
        ghost var op := Processing(w, g.value.original, finding);
        RunSnoc(old(Snapshot()), trace, Claim(w, g.value.u, now));
        RunSnoc(old(Snapshot()), trace + [Claim(w, g.value.u, now)], op);
        trace := trace + [Claim(w, g.value.u, now)] + [op];
        claimed := claimed + [g.value.u];
      }
    }

    // One pass of the loop.
    method ClaimAndProcess(w: Worker, now: real, finding: Finding) returns (g: Option<Granted>)
      requires Inv(Snapshot()) && w !in claims
      modifies this`uploads, this`counters, this`claims
      ensures Inv(Snapshot()) && claims == old(claims) && |uploads| == |old(uploads)|
      ensures g.None? ==> Snapshot() == old(Snapshot()) && NoneClaimable(uploads, now)
      ensures g.Some? ==>
                && g.value.u < |uploads| && Claimable(old(uploads)[g.value.u], now) && Finished(uploads[g.value.u])
                && uploads == old(uploads)[g.value.u := uploads[g.value.u]]
                && Snapshot()
                   == Apply(Apply(old(Snapshot()), Claim(w, g.value.u, now)), Processing(w, g.value.original, finding))
    {
      ghost var before := Snapshot();
      g := ClaimNext(w, now);
      if g.Some? {
        ProcessClaim(w, finding);
        PassFinishes(before, w, g.value.u, now, finding);
      }
    }
  }
}
