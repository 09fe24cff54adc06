/**
  The malware scan lease protocol (app/maintenance.py) over every interleaving of workers and of
  the other code that changes file rows.

  A worker claims a row under a fresh lease, scans outside any transaction, and commits its
  verdict only if the row still carries that lease. Scans may take arbitrarily long, and a worker
  may be cancelled at any point.
 */
module MalwareScan {
  import opened Common

  datatype FileStatus = Uploading | Quarantined | Processing | Available | FailedFile

  datatype ScanStatus = ScanPending | ScanProcessing | Clean | Infected | ScanError

  datatype Verdict = FoundClean | FoundInfected(signature: string) | NoVerdict(errorCode: string)

  type Lease = nat

  datatype File = File(
    status: FileStatus, scan: ScanStatus, nextAttemptAt: Option<real>, lease: Option<Lease>,
    attempts: nat, objectKey: string, signature: Option<string>, errorCode: Option<string>)

  datatype Claim = Claim(file: nat, lease: Lease, objectKey: string)

  // What a claim grants: a lease to scan one object.
  datatype Grant = Grant(lease: Lease, objectKey: string)

  // The audit trail; `Queued` is the call of enqueue_okf_conversion.
  datatype Event =
    Started(file: nat, grant: Grant) | Concluded(file: nat, grant: Grant, scan: ScanStatus) | Queued(file: nat)

  // `claims` are the claims that workers still remember; leases are drawn in order, so a new one is fresh.
  datatype Db = Db(files: seq<File>, claims: set<Claim>, nextLease: Lease, log: seq<Event>)

  datatype Op =
    | AddFile(objectKey: string)
    | PublishUpload(f: nat, objectKey: string)      // an upload session completes
    | FailUpload(f: nat)
    | Approve(f: nat)                               // a reviewer approves a scanned file
    | ClaimScan(f: nat, now: real)
    | CommitVerdict(claim: Claim, verdict: Verdict)
    | Forget(claim: Claim)                          // a worker is cancelled

  // The selection of _claim_next_malware_scan. The lease is good for `reclaim` seconds.
  predicate Claimable(file: File, now: real) {
    && file.status == Quarantined
    && (|| (file.scan == ScanPending && (file.nextAttemptAt.None? || file.nextAttemptAt.value <= now))
        || (file.scan == ScanProcessing && file.nextAttemptAt.Some? && file.nextAttemptAt.value <= now))
  }

  function ClaimFile(file: File, now: real, reclaim: real, lease: Lease): File {
    file.(scan := ScanProcessing, nextAttemptAt := Some(now + reclaim), lease := Some(lease),
          attempts := file.attempts + 1, signature := None, errorCode := None)
  }

  // The row is found again only under the lease and the object key of the claim.
  predicate StillLeased(file: File, claim: Claim) {
    file.status == Quarantined && file.scan == ScanProcessing
    && file.lease == Some(claim.lease) && file.objectKey == claim.objectKey
  }

  function ConcludeFile(file: File, verdict: Verdict): File {
    var done := file.(lease := None, nextAttemptAt := None);
    match verdict
    case FoundClean => done.(scan := Clean, status := Processing)
    case FoundInfected(signature) =>
      done.(scan := Infected, status := Quarantined, signature := Some(signature),
        errorCode := Some("malware_detected"))
    case NoVerdict(code) =>
      done.(scan := ScanError, status := Quarantined, errorCode := Some(if code == "" then "scanner_error" else code))
  }

  function ScanResult(verdict: Verdict): ScanStatus {
    match verdict
    case FoundClean => Clean
    case FoundInfected(_) => Infected
    case NoVerdict(_) => ScanError
  }

  // A clean file is queued for conversion before its verdict is recorded.
  function ConcludeLog(log: seq<Event>, claim: Claim, verdict: Verdict): seq<Event> {
    (if verdict.FoundClean? then log + [Queued(claim.file)] else log)
    + [Concluded(claim.file, Grant(claim.lease, claim.objectKey), ScanResult(verdict))]
  }

  predicate Commits(db: Db, op: Op) {
    match op
    case AddFile(_) => true
    case PublishUpload(f, _) => f < |db.files| && db.files[f].status == Uploading
    case FailUpload(f) => f < |db.files| && db.files[f].status == Uploading
    case Approve(f) => f < |db.files| && db.files[f].status == Processing && db.files[f].scan == Clean
    case ClaimScan(f, now) => f < |db.files| && Claimable(db.files[f], now)
    case CommitVerdict(claim, _) => claim in db.claims && claim.file < |db.files|
      && StillLeased(db.files[claim.file], claim)
    case Forget(_) => true
  }

  function SetFile(db: Db, f: nat, file: File): Db
    requires f < |db.files|
  {
    db.(files := db.files[f := file])
  }

  function Commit(db: Db, op: Op, reclaim: real): Db
    requires Commits(db, op)
  {
    match op
    case AddFile(key) => db.(files := db.files + [File(Uploading, ScanPending, None, None, 0, key, None, None)])
    case PublishUpload(f, key) =>
      SetFile(db, f, db.files[f].(status := Quarantined, scan := ScanPending, objectKey := key))
    case FailUpload(f) => SetFile(db, f, db.files[f].(status := FailedFile))
    case Approve(f) => SetFile(db, f, db.files[f].(status := Available))
    case ClaimScan(f, now) =>
      SetFile(db, f, ClaimFile(db.files[f], now, reclaim, db.nextLease))
        .(claims := db.claims + {Claim(f, db.nextLease, db.files[f].objectKey)},
          nextLease := db.nextLease + 1,
          log := db.log + [Started(f, Grant(db.nextLease, db.files[f].objectKey))])
    case CommitVerdict(claim, verdict) =>
      SetFile(db, claim.file, ConcludeFile(db.files[claim.file], verdict))
        .(claims := db.claims - {claim}, log := ConcludeLog(db.log, claim, verdict))
    case Forget(claim) => db.(claims := db.claims - {claim})
  }

  function Apply(db: Db, op: Op, reclaim: real): Db {
    if Commits(db, op) then Commit(db, op, reclaim) else db
  }

  function Run(db: Db, ops: seq<Op>, reclaim: real): Db
    decreases |ops|
  {
    if ops == [] then db else Run(Apply(db, ops[0], reclaim), ops[1..], reclaim)
  }

  const EMPTY := Db([], {}, 0, [])

  // ---- what every run satisfies ----

  datatype Kind = AStart | AConclusion | AQueueing

  predicate Is(e: Event, kind: Kind, f: nat) {
    e.file == f && match kind case AStart => e.Started? case AConclusion => e.Concluded? case AQueueing => e.Queued?
  }

  function Count(log: seq<Event>, kind: Kind, f: nat): nat {
    if log == [] then 0
    else Count(log[..|log| - 1], kind, f) + if Is(log[|log| - 1], kind, f) then 1 else 0
  }

  // What the most recent claim of a file granted.
  function LatestGrant(log: seq<Event>, f: nat): Option<Grant> {
    if log == [] then None
    else
      var last := log[|log| - 1];
      if Is(last, AStart, f) then Some(last.grant) else LatestGrant(log[..|log| - 1], f)
  }

  lemma {:induction false} OneMore(log: seq<Event>, e: Event)
    ensures forall kind, f :: Count(log + [e], kind, f) == Count(log, kind, f) + if Is(e, kind, f) then 1 else 0
    ensures forall f :: LatestGrant(log + [e], f) == if Is(e, AStart, f) then Some(e.grant) else LatestGrant(log, f)
  {
    assert (log + [e])[..|log|] == log;
  }

  // Each verdict in the trail was committed under what was most recently granted for its file.
  predicate VerdictsAreCurrent(log: seq<Event>) {
    forall i :: 0 <= i < |log| && log[i].Concluded? ==> LatestGrant(log[..i], log[i].file) == Some(log[i].grant)
  }

  predicate Terminal(scan: ScanStatus) { scan in {Clean, Infected, ScanError} }

  // A row and its history agree.
  predicate FileInv(db: Db, f: nat)
    requires f < |db.files|
  {
    var file := db.files[f];
    && file.attempts == Count(db.log, AStart, f)
    && Count(db.log, AConclusion, f) == (if Terminal(file.scan) then 1 else 0)
    && Count(db.log, AQueueing, f) == (if file.scan == Clean then 1 else 0)
    && (file.status in {Processing, Available} <==> file.scan == Clean)
    && (file.status in {Uploading, FailedFile} ==> file.scan == ScanPending && file.attempts == 0)
    && (file.lease.Some? <==> file.scan == ScanProcessing)
    && (file.lease.Some? ==>
          file.lease.value < db.nextLease && LatestGrant(db.log, f) == Some(Grant(file.lease.value, file.objectKey)))
  }

  predicate FilesFit(db: Db) { forall f :: 0 <= f < |db.files| ==> FileInv(db, f) }

  ghost predicate NoOtherEvents(db: Db) {
    forall f, kind :: |db.files| <= f ==> Count(db.log, kind, f) == 0
  }

  ghost predicate Inv(db: Db) {
    && FilesFit(db)
    && NoOtherEvents(db)
    && (forall c :: c in db.claims ==> c.file < |db.files| && c.lease < db.nextLease)
    && VerdictsAreCurrent(db.log)
    && VerdictsMatchRows(db)
  }

  // The scan status a verdict recorded, and the object it was for, are those its row still has.
  predicate VerdictsMatchRows(db: Db) {
    forall i :: 0 <= i < |db.log| && db.log[i].Concluded? ==> MatchesRow(db, db.log[i])
  }

  predicate MatchesRow(db: Db, e: Event)
    requires e.Concluded?
  {
    e.file < |db.files| && db.files[e.file].scan == e.scan && db.files[e.file].objectKey == e.grant.objectKey
  }

  lemma {:induction false} NotCounted(log: seq<Event>, kind: Kind, f: nat, i: nat)
    requires Count(log, kind, f) == 0 && i < |log|
    ensures !Is(log[i], kind, f)
  {
    if i < |log| - 1 {
      NotCounted(log[..|log| - 1], kind, f, i);
    }
  }

  // A file with a verdict has a terminal status, so that no transaction touches what the verdict says.
  lemma {:induction false} VerdictIsOnRecord(db: Db, i: nat)
    requires FilesFit(db) && VerdictsMatchRows(db) && i < |db.log| && db.log[i].Concluded?
    ensures db.log[i].file < |db.files| && Terminal(db.files[db.log[i].file].scan)
  {
    var f := db.log[i].file;
    assert MatchesRow(db, db.log[i]);
    assert FileInv(db, f);
    if Count(db.log, AConclusion, f) == 0 {
      NotCounted(db.log, AConclusion, f, i);
    }
  }

  lemma {:induction false} OldVerdictsMatch(db: Db, op: Op, reclaim: real, i: nat)
    requires Inv(db) && Commits(db, op) && i < |db.log| && db.log[i].Concluded?
    ensures MatchesRow(Commit(db, op, reclaim), db.log[i])
  {
    VerdictIsOnRecord(db, i);
    assert MatchesRow(db, db.log[i]);
    assert FileInv(db, db.log[i].file);
  }

  lemma {:induction false} VerdictStillMatchesRow(db: Db, op: Op, reclaim: real)
    requires Inv(db) && Commits(db, op)
    ensures VerdictsMatchRows(Commit(db, op, reclaim))
  {
    var next := Commit(db, op, reclaim);
    forall i | 0 <= i < |next.log| && next.log[i].Concluded? ensures MatchesRow(next, next.log[i]) {
      if i < |db.log| {
        OldVerdictsMatch(db, op, reclaim, i);
        assert next.log[i] == db.log[i];
      }
    }
  }

  lemma {:induction false} SnocStaysCurrent(log: seq<Event>, e: Event)
    requires VerdictsAreCurrent(log) && (e.Concluded? ==> LatestGrant(log, e.file) == Some(e.grant))
    ensures VerdictsAreCurrent(log + [e])
  {
    forall i | 0 <= i < |log + [e]| && (log + [e])[i].Concluded?
      ensures LatestGrant((log + [e])[..i], (log + [e])[i].file) == Some((log + [e])[i].grant)
    {
      assert (log + [e])[..i] == log[..i];
    }
  }

  lemma {:induction false} VerdictStaysCurrent(db: Db, op: Op, reclaim: real)
    requires Inv(db) && Commits(db, op)
    ensures VerdictsAreCurrent(Commit(db, op, reclaim).log)
  {
    match op
    case ClaimScan(f, _) => SnocStaysCurrent(db.log, Started(f, Grant(db.nextLease, db.files[f].objectKey)));
    case CommitVerdict(claim, verdict) =>
      assert FileInv(db, claim.file);
      var queued := db.log + [Queued(claim.file)];
      SnocStaysCurrent(db.log, Queued(claim.file));
      OneMore(db.log, Queued(claim.file));
      SnocStaysCurrent(if verdict.FoundClean? then queued else db.log,
                       Concluded(claim.file, Grant(claim.lease, claim.objectKey), ScanResult(verdict)));
    case _ =>
  }

  lemma {:induction false} ClaimKeepsFiles(db: Db, f: nat, now: real, reclaim: real)
    requires FilesFit(db) && NoOtherEvents(db) && Commits(db, ClaimScan(f, now))
    ensures var next := Commit(db, ClaimScan(f, now), reclaim); FilesFit(next) && NoOtherEvents(next)
  {
    var next := Commit(db, ClaimScan(f, now), reclaim);
    OneMore(db.log, Started(f, Grant(db.nextLease, db.files[f].objectKey)));
    forall g | 0 <= g < |next.files| ensures FileInv(next, g) {
      assert FileInv(db, g);
    }
  }

  // The events of a verdict are of its file alone.
  lemma {:induction false} VerdictCounts(log: seq<Event>, claim: Claim, verdict: Verdict, g: nat)
    ensures var next, own := ConcludeLog(log, claim, verdict), g == claim.file;
            && Count(next, AStart, g) == Count(log, AStart, g)
            && Count(next, AConclusion, g) == Count(log, AConclusion, g) + (if own then 1 else 0)
            && Count(next, AQueueing, g) == Count(log, AQueueing, g) + (if own && verdict.FoundClean? then 1 else 0)
            && LatestGrant(next, g) == LatestGrant(log, g)
  {
    var queued := if verdict.FoundClean? then log + [Queued(claim.file)] else log;
    OneMore(log, Queued(claim.file));
    OneMore(queued, Concluded(claim.file, Grant(claim.lease, claim.objectKey), ScanResult(verdict)));
  }

  lemma {:induction false} VerdictKeepsFiles(db: Db, claim: Claim, verdict: Verdict, reclaim: real)
    requires FilesFit(db) && NoOtherEvents(db) && Commits(db, CommitVerdict(claim, verdict))
    ensures var next := Commit(db, CommitVerdict(claim, verdict), reclaim); FilesFit(next) && NoOtherEvents(next)
  {
    var next := Commit(db, CommitVerdict(claim, verdict), reclaim);
    forall g | 0 <= g < |next.files| ensures FileInv(next, g) {
      assert FileInv(db, g);
      VerdictCounts(db.log, claim, verdict, g);
    }
    forall g: nat, kind | |next.files| <= g ensures Count(next.log, kind, g) == 0 {
      VerdictCounts(db.log, claim, verdict, g);
      match kind case AStart => case AConclusion => case AQueueing =>
    }
  }

  lemma {:induction false} OthersKeepFiles(db: Db, op: Op, reclaim: real)
    requires FilesFit(db) && NoOtherEvents(db) && Commits(db, op) && !op.ClaimScan? && !op.CommitVerdict?
    ensures var next := Commit(db, op, reclaim); FilesFit(next) && NoOtherEvents(next)
  {
    var next := Commit(db, op, reclaim);
    forall g | 0 <= g < |next.files| ensures FileInv(next, g) {
      if g < |db.files| {
        assert FileInv(db, g);
      } else {
        NeverGranted(db.log, g);
      }
    }
  }

  lemma {:induction false} NeverGranted(log: seq<Event>, f: nat)
    ensures Count(log, AStart, f) == 0 ==> LatestGrant(log, f).None?
  {
    if log != [] {
      NeverGranted(log[..|log| - 1], f);
    }
  }

  lemma {:induction false} StepKeepsInv(db: Db, op: Op, reclaim: real)
    requires Inv(db)
    ensures Inv(Apply(db, op, reclaim))
  {
    if Commits(db, op) {
      match op {
        case ClaimScan(f, now) => ClaimKeepsFiles(db, f, now, reclaim);
        case CommitVerdict(claim, verdict) => VerdictKeepsFiles(db, claim, verdict, reclaim);
        case _ => OthersKeepFiles(db, op, reclaim);
      }
      VerdictStaysCurrent(db, op, reclaim);
      VerdictStillMatchesRow(db, op, reclaim);
    }
  }

  /**
    In every run: `attempts` counts the claims; a file has at most one terminal verdict, exactly
    one if its scan status is terminal; it is queued for conversion at most once; it is out of
    quarantine only if its verdict is CLEAN; and every verdict was committed under the lease and
    the object key most recently granted for the file, which its row still names.
   */
  lemma {:induction false} EveryRunKeepsLeases(db: Db, ops: seq<Op>, reclaim: real)
    requires Inv(db)
    ensures Inv(Run(db, ops, reclaim))
    decreases |ops|
  {
    if ops != [] {
      StepKeepsInv(db, ops[0], reclaim);
      EveryRunKeepsLeases(Apply(db, ops[0], reclaim), ops[1..], reclaim);
    }
  }

  lemma {:induction false} CountPositive(log: seq<Event>, kind: Kind, f: nat) returns (i: nat)
    requires Count(log, kind, f) > 0
    ensures i < |log| && Is(log[i], kind, f)
  {
    i := |log| - 1;
    if !Is(log[i], kind, f) {
      i := CountPositive(log[..i], kind, f);
    }
  }

  /**
    A file that was let out of quarantine has one CLEAN verdict in the trail, committed under its
    latest lease, granted and committed for the object that the row still names.
   */
  lemma {:induction false} ReleasedOnlyByCurrentLease(ops: seq<Op>, reclaim: real, f: nat) returns (i: nat)
    requires f < |Run(EMPTY, ops, reclaim).files| && Run(EMPTY, ops, reclaim).files[f].status in {Processing, Available}
    ensures var db := Run(EMPTY, ops, reclaim);
            && i < |db.log| && Is(db.log[i], AConclusion, f) && db.log[i].scan == Clean
            && LatestGrant(db.log[..i], f) == Some(db.log[i].grant)
            && db.log[i].grant.objectKey == db.files[f].objectKey
            && Count(db.log, AConclusion, f) == 1 && Count(db.log, AQueueing, f) == 1
            && db.files[f].scan == Clean
  {
    EveryRunKeepsLeases(EMPTY, ops, reclaim);
    var db := Run(EMPTY, ops, reclaim);
    assert FileInv(db, f);
    i := CountPositive(db.log, AConclusion, f);
    assert MatchesRow(db, db.log[i]);
  }

  // A claim whose lease is no longer on its row.
  predicate Stale(db: Db, claim: Claim) {
    claim.file < |db.files| && claim.lease < db.nextLease && db.files[claim.file].lease != Some(claim.lease)
  }

  /** A replaced lease never comes back: whatever happens, its holder commits nothing. */
  lemma {:induction false} StaleForever(db: Db, ops: seq<Op>, reclaim: real, claim: Claim, verdict: Verdict)
    requires Stale(db, claim)
    ensures var end := Run(db, ops, reclaim);
            Stale(end, claim) && Apply(end, CommitVerdict(claim, verdict), reclaim) == end
    decreases |ops|
  {
    if ops != [] {
      assert Stale(Apply(db, ops[0], reclaim), claim);
      StaleForever(Apply(db, ops[0], reclaim), ops[1..], reclaim, claim, verdict);
    }
  }

  /** Reclaiming a file makes every earlier claim of it stale. */
  lemma ReclaimMakesStale(db: Db, f: nat, now: real, reclaim: real, claim: Claim)
    requires Inv(db) && claim in db.claims && claim.file == f && Commits(db, ClaimScan(f, now))
    ensures Stale(Apply(db, ClaimScan(f, now), reclaim), claim)
  {
  }

  /** A terminal verdict is never revised and the file is never scanned again. */
  lemma {:induction false} VerdictIsFinal(db: Db, ops: seq<Op>, reclaim: real, f: nat)
    requires Inv(db) && f < |db.files| && Terminal(db.files[f].scan)
    ensures var end := Run(db, ops, reclaim);
            && f < |end.files| && end.files[f].scan == db.files[f].scan
            && end.files[f].attempts == db.files[f].attempts && end.files[f].objectKey == db.files[f].objectKey
            && (db.files[f].scan != Clean ==> end.files[f].status == Quarantined)
    decreases |ops|
  {
    assert FileInv(db, f);
    if ops != [] {
      StepKeepsInv(db, ops[0], reclaim);
      VerdictIsFinal(Apply(db, ops[0], reclaim), ops[1..], reclaim, f);
    }
  }

  // ---- the worker's loop ----

  predicate OldestClaimable(files: seq<File>, f: nat, now: real) {
    f < |files| && Claimable(files[f], now) && forall g :: 0 <= g < f ==> !Claimable(files[g], now)
  }

  class ScanQueue {
    var files: seq<File>          // in order of creation
    var claims: set<Claim>
    var nextLease: Lease
    var log: seq<Event>
    const reclaim: real

    constructor (reclaim: real)
      ensures Snapshot() == EMPTY && this.reclaim == reclaim
    {
      files, claims, nextLease, log := [], {}, 0, [];
      this.reclaim := reclaim;
    }

    function Snapshot(): Db
      reads this
    {
      Db(files, claims, nextLease, log)
    }

    method ClaimNext(now: real) returns (claim: Option<Claim>)
      modifies this
      ensures claim.None? ==> Snapshot() == old(Snapshot()) && forall f :: 0 <= f < |files| ==>
              !Claimable(files[f], now)
      ensures claim.Some? ==>
                && OldestClaimable(old(files), claim.value.file, now)
                && claim.value == Claim(claim.value.file, old(nextLease), old(files)[claim.value.file].objectKey)
                && Snapshot() == Apply(old(Snapshot()), ClaimScan(claim.value.file, now), reclaim)
                && (forall t :: Claimable(files[claim.value.file], t) <==> now + reclaim <= t)
    {
      var f := 0;
      while f < |files| && !Claimable(files[f], now)
        invariant 0 <= f <= |files|
        invariant forall g :: 0 <= g < f ==> !Claimable(files[g], now)
      {
        f := f + 1;
      }
      if f == |files| {
        return None;
      }
      var granted := Claim(f, nextLease, files[f].objectKey);
      files := files[f := ClaimFile(files[f], now, reclaim, nextLease)];
      claims, nextLease, log := claims + {granted}, nextLease + 1,
        log + [Started(f, Grant(nextLease, files[f].objectKey))];
      return Some(granted);
    }

    method Conclude(claim: Claim, verdict: Verdict) returns (persisted: bool)
      requires claim in claims && claim.file < |files|
      modifies this
      ensures persisted <==> StillLeased(old(files)[claim.file], claim)
      ensures Snapshot() == Apply(old(Snapshot()), CommitVerdict(claim, verdict), reclaim)
      ensures persisted ==>
                files[claim.file].status == if verdict == FoundClean then Processing else Quarantined
    {
      var file := files[claim.file];
      if !StillLeased(file, claim) {
        return false;
      }
      files := files[claim.file := ConcludeFile(file, verdict)];
      claims, log := claims - {claim}, ConcludeLog(log, claim, verdict);
      return true;
    }

    /** One undisturbed batch: it concludes exactly the files it claims, each of them once. */
    method ProcessBatch(limit: nat, clock: nat -> real, scanner: nat -> Verdict) returns (scanned: seq<nat>)
      requires Inv(Snapshot())
      modifies this
      ensures Inv(Snapshot()) && |files| == |old(files)| && |scanned| <= limit
      ensures forall i, j :: 0 <= i < j < |scanned| ==> scanned[i] != scanned[j]
      ensures forall i :: 0 <= i < |scanned| ==>
                            scanned[i] < |files| && Terminal(files[scanned[i]].scan)
                            && (files[scanned[i]].status == Processing <==> scanner(i) == FoundClean)
      ensures forall f :: 0 <= f < |files| && f !in scanned ==> files[f] == old(files)[f]
      ensures |scanned| < limit ==> forall f :: 0 <= f < |files| ==> !Claimable(files[f], clock(|scanned|))
    {
      scanned := [];
      while |scanned| < limit
        invariant Inv(Snapshot()) && |files| == |old(files)| && |scanned| <= limit
        invariant forall i, j :: 0 <= i < j < |scanned| ==> scanned[i] != scanned[j]
        invariant forall i :: 0 <= i < |scanned| ==>
                                scanned[i] < |files| && Terminal(files[scanned[i]].scan)
                                && (files[scanned[i]].status == Processing <==> scanner(i) == FoundClean)
        invariant forall f :: 0 <= f < |files| && f !in scanned ==> files[f] == old(files)[f]
        decreases limit - |scanned|
      {
        var f := ProcessOne(clock(|scanned|), scanner(|scanned|));
        if f.None? {
          return;
        }
        scanned := scanned + [f.value];
      }
    }

    // One pass of the loop: claim, scan, conclude.
    method ProcessOne(now: real, verdict: Verdict) returns (f: Option<nat>)
      requires Inv(Snapshot())
      modifies this
      ensures Inv(Snapshot()) && |files| == |old(files)|
      ensures f.None? ==> files == old(files) && forall g :: 0 <= g < |files| ==> !Claimable(files[g], now)
      ensures f.Some? ==>
                && f.value < |files| && Claimable(old(files)[f.value], now)
                && files == old(files)[f.value := files[f.value]]
                && Terminal(files[f.value].scan) && (files[f.value].status == Processing <==> verdict == FoundClean)
    {
      ghost var before := Snapshot();
      var claim := ClaimNext(now);
      if claim.None? {
        return None;
      }
      StepKeepsInv(before, ClaimScan(claim.value.file, now), reclaim);
      StepKeepsInv(Snapshot(), CommitVerdict(claim.value, verdict), reclaim);
      var persisted := Conclude(claim.value, verdict);
      return Some(claim.value.file);
    }
  }
}
