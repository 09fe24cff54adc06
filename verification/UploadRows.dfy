/**
  One upload session row and the guarded updates that transactions make to it:
  the maintenance worker (app/maintenance.py) and the upload routes
  (app/api/v1/routes/files.py). Times are seconds.
 */
module UploadRows {
  import opened Common
  import opened Quota

  datatype SessionStatus = Initiated | Finalizing | Completed | Failed | Aborted | Expired

  datatype Upload = Upload(status: SessionStatus, expiresAt: real, reservations: seq<Reservation>)

  // 15 minutes: the claim lease and the finalization window.
  const LEASE_SECONDS := 900.0

  predicate HasHeld(rs: seq<Reservation>) {
    exists i :: 0 <= i < |rs| && rs[i].status == Held
  }

  // The selection of claim_next.
  predicate Claimable(u: Upload, now: real) {
    && (u.status in {Initiated, Finalizing} || (u.status in {Aborted, Expired} && HasHeld(u.reservations)))
    && u.expiresAt < now
  }

  function ClaimRow(u: Upload, now: real): Upload {
    u.(status := if u.status == Initiated then Expired else u.status, expiresAt := now + LEASE_SECONDS)
  }

  // complete_upload's first transaction.
  predicate CanBeginFinalize(u: Upload, now: real) {
    u.status == Finalizing || (u.status == Initiated && now < u.expiresAt)
  }

  function BeginFinalizeRow(u: Upload, now: real): Upload {
    u.(status := Finalizing, expiresAt := Max(u.expiresAt, now + LEASE_SECONDS))
  }

  // abort_upload's first transaction.
  predicate CanBeginAbort(u: Upload) {
    u.status != Completed && u.status != Expired && (u.status == Aborted ==> HasHeld(u.reservations))
  }

  function BeginAbortRow(u: Upload, now: real): Upload {
    if u.status == Aborted then u else u.(status := Aborted, expiresAt := now)
  }

  // The last transaction of a maintenance claim: `original` and `rejected` are what the worker
  // remembers from its claim and its storage inspection, and may be stale.
  predicate SettlesAsAborted(u: Upload, original: SessionStatus) {
    original == Aborted || u.status == Aborted
  }

  function SettledStatus(u: Upload, original: SessionStatus, rejected: bool): SessionStatus {
    if SettlesAsAborted(u, original) then Aborted
    else if original == Finalizing && rejected then Failed
    else Expired
  }

  function SettledOutcome(u: Upload, original: SessionStatus, rejected: bool): ReservationStatus {
    if SettlesAsAborted(u, original) || (original == Finalizing && rejected) then Released else Lapsed
  }

  function SettleRow(u: Upload, status: SessionStatus, outcome: ReservationStatus): Upload {
    u.(status := status, reservations := SettleReservations(u.reservations, outcome))
  }
}
