/**
  How long a malware scan lease lasts, and what a verdict does to the file (app/maintenance.py).
 */
module ScanLeases {
  import opened Common
  import opened MalwareScan

  // A claim of the file comes, if at all, before the given time.
  predicate ClaimsBefore(ops: seq<Op>, f: nat, until: real) {
    forall i :: 0 <= i < |ops| && ops[i].ClaimScan? && ops[i].f == f ==> ops[i].now < until
  }

  predicate LeasedUntil(file: File, until: real) {
    && file.status == Quarantined && file.scan == ScanProcessing && file.lease.Some?
    && file.nextAttemptAt == Some(until)
  }

  // Nobody has claimed the file since `file`: it is as it was, or it has got its verdict.
  predicate UntouchedOrConcluded(file: File, now: File) {
    now.attempts == file.attempts && (now == file || Terminal(now.scan))
  }

  /** A claim is the only one until its lease has run out, and from then on anyone may claim the file. */
  lemma {:induction false} ClaimIsALease(db: Db, f: nat, now: real, reclaim: real)
    requires Commits(db, ClaimScan(f, now))
    ensures var next := Apply(db, ClaimScan(f, now), reclaim);
            && LeasedUntil(next.files[f], now + reclaim)
            && next.files[f].attempts == db.files[f].attempts + 1
            && Claim(f, next.files[f].lease.value, db.files[f].objectKey) in next.claims
            && (forall t :: Commits(next, ClaimScan(f, t)) <==> now + reclaim <= t)
            && (forall g :: 0 <= g < |db.files| && g != f ==> next.files[g] == db.files[g])
  {
  }

  lemma {:induction false} StepInsideLease(db: Db, op: Op, reclaim: real, f: nat, until: real)
    requires f < |db.files| && LeasedUntil(db.files[f], until) && ClaimsBefore([op], f, until)
    ensures var next := Apply(db, op, reclaim); f < |next.files| && UntouchedOrConcluded(db.files[f], next.files[f])
  {
    assert [op][0] == op;
  }

  // The file of a run of which no operation claims it.
  lemma {:induction false} InsideLease(db: Db, ops: seq<Op>, reclaim: real, f: nat, until: real)
    requires Inv(db) && f < |db.files| && LeasedUntil(db.files[f], until) && ClaimsBefore(ops, f, until)
    ensures var end := Run(db, ops, reclaim); f < |end.files| && UntouchedOrConcluded(db.files[f], end.files[f])
    decreases |ops|
  {
    if ops != [] {
      var next := Apply(db, ops[0], reclaim);
      assert ClaimsBefore([ops[0]], f, until);
      StepInsideLease(db, ops[0], reclaim, f, until);
      StepKeepsInv(db, ops[0], reclaim);
      assert ClaimsBefore(ops[1..], f, until);
      if Terminal(next.files[f].scan) {
        VerdictIsFinal(next, ops[1..], reclaim, f);
      } else {
        InsideLease(next, ops[1..], reclaim, f, until);
      }
    }
  }

  /**
    In every run, no second claim of a file commits before the lease of the first has run out.
    If the file has no verdict by then, it can be claimed at every later time and at no earlier
    one, and until someone does the first worker's verdict still counts.
   */
  lemma {:induction false} OneClaimPerLease(db: Db, f: nat, now: real, ops: seq<Op>, reclaim: real)
    requires Inv(db) && Commits(db, ClaimScan(f, now)) && ClaimsBefore(ops, f, now + reclaim)
    ensures var claim := Claim(f, db.nextLease, db.files[f].objectKey);
            var end := Run(Apply(db, ClaimScan(f, now), reclaim), ops, reclaim);
            && f < |end.files|
            && end.files[f].attempts == db.files[f].attempts + 1
            && Count(end.log, AStart, f) == Count(db.log, AStart, f) + 1
            && (!Terminal(end.files[f].scan) ==>
                  && (forall t :: Commits(end, ClaimScan(f, t)) <==> now + reclaim <= t)
                  && (forall v :: Commits(end, CommitVerdict(claim, v)) <==> claim in end.claims))
  {
    ClaimIsALease(db, f, now, reclaim);
    var claimed := Apply(db, ClaimScan(f, now), reclaim);
    StepKeepsInv(db, ClaimScan(f, now), reclaim);
    InsideLease(claimed, ops, reclaim, f, now + reclaim);
    EveryRunKeepsLeases(claimed, ops, reclaim);
    assert FileInv(Run(claimed, ops, reclaim), f) && FileInv(db, f);
  }

  // A leased file of which no worker remembers the claim.
  predicate Orphaned(db: Db, f: nat, until: real) {
    && f < |db.files| && LeasedUntil(db.files[f], until)
    && Claim(f, db.files[f].lease.value, db.files[f].objectKey) !in db.claims
  }

  lemma {:induction false} OrphanStays(db: Db, ops: seq<Op>, reclaim: real, f: nat, until: real)
    requires Orphaned(db, f, until) && ClaimsBefore(ops, f, until)
    ensures var end := Run(db, ops, reclaim); f < |end.files| && end.files[f] == db.files[f]
    decreases |ops|
  {
    if ops != [] {
      assert ClaimsBefore([ops[0]], f, until);
      StepInsideLease(db, ops[0], reclaim, f, until);
      var next := Apply(db, ops[0], reclaim);
      assert next.files[f] == db.files[f] && Orphaned(next, f, until);
      assert ClaimsBefore(ops[1..], f, until);
      OrphanStays(next, ops[1..], reclaim, f, until);
    }
  }

  /** A worker that is cancelled leaves its file leased, with no verdict, and claimable once the lease has run out. */
  lemma {:induction false} CancelledIsRecoverable(db: Db, f: nat, now: real, ops: seq<Op>, reclaim: real, t: real)
    requires Commits(db, ClaimScan(f, now)) && ClaimsBefore(ops, f, now + reclaim)
    ensures var claimed := Apply(db, ClaimScan(f, now), reclaim);
            var lost := Apply(claimed, Forget(Claim(f, db.nextLease, db.files[f].objectKey)), reclaim);
            var end := Run(lost, ops, reclaim);
            && f < |end.files| && end.files[f] == claimed.files[f]
            && (Commits(end, ClaimScan(f, t)) <==> now + reclaim <= t)
  {
    ClaimIsALease(db, f, now, reclaim);
    var claimed := Apply(db, ClaimScan(f, now), reclaim);
    var lost := Apply(claimed, Forget(Claim(f, db.nextLease, db.files[f].objectKey)), reclaim);
    OrphanStays(lost, ops, reclaim, f, now + reclaim);
  }

  // Only CLEAN lets a file out; every other result keeps it in quarantine, with the reason.
  predicate VerdictLeaves(verdict: Verdict, file: File) {
    && file.lease == None && file.nextAttemptAt == None
    && (file.status == if verdict == FoundClean then Processing else Quarantined)
    && (verdict == FoundClean ==> file.scan == Clean && file.signature == None && file.errorCode == None)
    && (verdict.FoundInfected? ==>
          file.scan == Infected && file.signature == Some(verdict.signature)
          && file.errorCode == Some("malware_detected"))
    && (verdict.NoVerdict? ==>
          file.scan == ScanError && file.signature == None
          && file.errorCode == Some(if verdict.errorCode == "" then "scanner_error" else verdict.errorCode))
  }

  /** What claiming a file and committing a verdict leaves. */
  lemma {:induction false} VerdictEffect(db: Db, f: nat, now: real, reclaim: real, verdict: Verdict)
    requires Commits(db, ClaimScan(f, now))
    ensures var claim := Claim(f, db.nextLease, db.files[f].objectKey);
            var claimed := Apply(db, ClaimScan(f, now), reclaim);
            var done := Apply(claimed, CommitVerdict(claim, verdict), reclaim);
            && Commits(claimed, CommitVerdict(claim, verdict))
            && VerdictLeaves(verdict, done.files[f])
            && done.files[f].objectKey == db.files[f].objectKey
            && (verdict == FoundClean ==>
                  done.log == claimed.log + [Queued(f), Concluded(f, Grant(claim.lease, claim.objectKey), Clean)])
            && (verdict != FoundClean ==>
                  done.log == claimed.log
                              + [Concluded(f, Grant(claim.lease, claim.objectKey), done.files[f].scan)])
            && (forall t :: !Commits(done, ClaimScan(f, t)))
            && (forall g :: 0 <= g < |db.files| && g != f ==> done.files[g] == db.files[g])
  {
  }

  /** A published upload waits in quarantine, and a new file can be claimed at once. */
  lemma {:induction false} PublishedWaitsInQuarantine(db: Db, f: nat, key: string, reclaim: real)
    requires Commits(db, PublishUpload(f, key))
    ensures var next := Apply(db, PublishUpload(f, key), reclaim);
            && next.files[f].status == Quarantined && next.files[f].scan == ScanPending
            && next.files[f].objectKey == key
            && (db.files[f].nextAttemptAt == None ==> forall t :: Commits(next, ClaimScan(f, t)))
    ensures var added := Apply(db, AddFile(key), reclaim);
            && |added.files| == |db.files| + 1 && added.files[|db.files|].status == Uploading
            && added.files[|db.files|].nextAttemptAt == None && (forall t :: !Commits(added, ClaimScan(|db.files|, t)))
  {
  }
}
