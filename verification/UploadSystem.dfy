/**
  Every interleaving of upload requests and maintenance workers, at the granularity of
  committed transactions.

  A transaction holds the row lock from its read to its commit, so it is one atomic operation.
  A worker or a request that is cancelled, crashes or loses its row contributes nothing. Clock
  readings are arguments of the operations, and the claim a worker remembers may be arbitrarily
  old, so an operation sequence covers any number of workers, any clocks and any staleness.
 */
module UploadSystem {
  import opened Common
  import opened Quota
  import opened UploadRows

  type Worker = nat

  // What a worker remembers of its claim: the upload and the status that the claim read.
  datatype Granted = Granted(u: nat, original: SessionStatus)

  // `charged` records the direct charges made by QuotaService.consume; `aborting` the uploads
  // for which some abort request has committed its first transaction; `claims` the claims on
  // which workers are still acting.
  datatype Db = Db(
    uploads: seq<Upload>, counters: Counters, charged: map<CounterKey, nat>, aborting: set<nat>,
    claims: map<Worker, Granted>)

  datatype Op =
    | Initiate(expiresAt: real, specs: seq<Spec>)
    | BeginFinalize(u: nat, now: real)
    | Complete(u: nat)                       // the request publishes
    | Reject(u: nat)                         // the request records a rejection
    | BeginAbort(u: nat, now: real)
    | FinishAbort(u: nat)
    | Claim(w: Worker, u: nat, now: real)
    | Publish(w: Worker)                     // the worker's re-lock after a matching inspection
    | Settle(w: Worker, rejected: bool)      // the worker's last transaction otherwise
    | Forget(w: Worker)                      // the worker is cancelled
    | Charge(key: CounterKey, amount: nat, limit: Option<nat>)

  const EMPTY := Db([], map[], map[], {}, map[])

  function Charged(db: Db, key: CounterKey): nat {
    if key in db.charged then db.charged[key] else 0
  }

  function SetRow(db: Db, u: nat, row: Upload): Db
    requires u < |db.uploads|
  {
    db.(uploads := db.uploads[u := row])
  }

  // Settles the held reservations of one upload together with its status change.
  function SettleUpload(db: Db, u: nat, status: SessionStatus, outcome: ReservationStatus): Db
    requires u < |db.uploads|
  {
    var row := db.uploads[u];
    SetRow(db, u, SettleRow(row, status, outcome))
      .(counters := SettleCounters(db.counters, row.reservations, outcome))
  }

  function Release(db: Db, w: Worker): Db { db.(claims := db.claims - {w}) }

  predicate HasClaim(db: Db, w: Worker) { w in db.claims && db.claims[w].u < |db.uploads| }

  // Whether the transaction finds its row in a state on which it commits a change.
  predicate Commits(db: Db, op: Op) {
    match op
    case Initiate(_, specs) => AdmitAll(db.counters, specs).Some?
    case Charge(key, amount, limit) =>
      CheckReservation(Get(db.counters, key).used, Get(db.counters, key).reserved, amount, limit).Ok?
    case BeginFinalize(u, now) => u < |db.uploads| && CanBeginFinalize(db.uploads[u], now)
    case Complete(u) => u < |db.uploads| && db.uploads[u].status == Finalizing
    case Reject(u) => u < |db.uploads| && db.uploads[u].status == Finalizing
    case BeginAbort(u, _) => u < |db.uploads| && CanBeginAbort(db.uploads[u])
    case FinishAbort(u) => u < |db.uploads| && u in db.aborting && HasHeld(db.uploads[u].reservations)
    case Claim(w, u, now) => u < |db.uploads| && w !in db.claims && Claimable(db.uploads[u], now)
    case Publish(w) => HasClaim(db, w) && db.claims[w].original == Finalizing
    case Settle(w, _) => HasClaim(db, w)
    case Forget(w) => w in db.claims
  }

  // The two transactions that end a claim. Each leaves a row alone that it does not find as it
  // must be: FINALIZING for a publication, not COMPLETED for a settlement.
  function PublishClaim(db: Db, g: Granted): Db
    requires g.u < |db.uploads|
  {
    if db.uploads[g.u].status == Finalizing then SettleUpload(db, g.u, Completed, Consumed) else db
  }

  function SettleClaim(db: Db, g: Granted, rejected: bool): Db
    requires g.u < |db.uploads|
  {
    var row := db.uploads[g.u];
    if row.status == Completed then db
    else SettleUpload(db, g.u, SettledStatus(row, g.original, rejected), SettledOutcome(row, g.original, rejected))
  }

  function Commit(db: Db, op: Op): Db
    requires Commits(db, op)
  {
    match op
    case Initiate(expiresAt, specs) =>
      db.(uploads := db.uploads + [Upload(Initiated, expiresAt, Reserve(specs))],
          counters := AdmitAll(db.counters, specs).value)
    case BeginFinalize(u, now) => SetRow(db, u, BeginFinalizeRow(db.uploads[u], now))
    case Complete(u) => SettleUpload(db, u, Completed, Consumed)
    case Reject(u) => SettleUpload(db, u, Failed, Released)
    case BeginAbort(u, now) =>
      SetRow(db, u, BeginAbortRow(db.uploads[u], now)).(aborting := db.aborting + {u})
    case FinishAbort(u) => SettleUpload(db, u, db.uploads[u].status, Released)
    case Claim(w, u, now) =>
      SetRow(db, u, ClaimRow(db.uploads[u], now)).(claims := db.claims[w := Granted(u, db.uploads[u].status)])
    case Publish(w) => Release(PublishClaim(db, db.claims[w]), w)
    case Settle(w, rejected) => Release(SettleClaim(db, db.claims[w], rejected), w)
    case Forget(w) => Release(db, w)
    case Charge(key, amount, _) =>
      var c := Get(db.counters, key);
      db.(counters := db.counters[key := Counter(c.used + amount, c.reserved)],
          charged := db.charged[key := Charged(db, key) + amount])
  }

  function Apply(db: Db, op: Op): Db {
    if Commits(db, op) then Commit(db, op) else db
  }

  function Run(db: Db, ops: seq<Op>): Db
    decreases |ops|
  {
    if ops == [] then db else Run(Apply(db, ops[0]), ops[1..])
  }

  // ---- what every reachable state satisfies ----

  predicate AllIn(rs: seq<Reservation>, allowed: set<ReservationStatus>) {
    forall i :: 0 <= i < |rs| ==> rs[i].status in allowed
  }

  predicate Uniform(rs: seq<Reservation>) {
    forall i, j :: 0 <= i < |rs| && 0 <= j < |rs| ==> rs[i].status == rs[j].status
  }

  // The outcomes a session status allows its reservations.
  function Allowed(status: SessionStatus): set<ReservationStatus> {
    match status
    case Initiated => {Held}
    case Finalizing => {Held}
    case Completed => {Consumed}
    case Failed => {Released, Lapsed}
    case Aborted => {Held, Released, Lapsed}
    case Expired => {Held, Released, Lapsed}
  }

  predicate RowConsistent(u: Upload) {
    Uniform(u.reservations) && AllIn(u.reservations, Allowed(u.status))
  }

  function Total(uploads: seq<Upload>, key: CounterKey, status: ReservationStatus): nat {
    if uploads == [] then 0
    else Amount(uploads[0].reservations, key, status) + Total(uploads[1..], key, status)
  }

  // A counter is exactly the sum over the reservations and the direct charges.
  predicate Balanced(db: Db, key: CounterKey) {
    && Get(db.counters, key).reserved == Total(db.uploads, key, Held)
    && Get(db.counters, key).used == Total(db.uploads, key, Consumed) + Charged(db, key)
  }

  // A claim of an ABORTED session finds it ABORTED ever after.
  predicate ClaimsFit(db: Db) {
    forall w :: w in db.claims ==>
                  && db.claims[w].u < |db.uploads|
                  && (db.claims[w].original == Aborted ==> db.uploads[db.claims[w].u].status == Aborted)
  }

  ghost predicate Inv(db: Db) {
    && RowsFit(db) && ClaimsFit(db)
    && (forall key :: Balanced(db, key))
  }

  lemma {:induction false} TotalUpdate(
    uploads: seq<Upload>, u: nat, row: Upload, key: CounterKey, status: ReservationStatus)
    requires u < |uploads|
    ensures Total(uploads[u := row], key, status) + Amount(uploads[u].reservations, key, status)
            == Total(uploads, key, status) + Amount(row.reservations, key, status)
  {
    if u == 0 {
      assert uploads[u := row][1..] == uploads[1..];
    } else {
      assert uploads[u := row][1..] == uploads[1..][u - 1 := row];
      TotalUpdate(uploads[1..], u - 1, row, key, status);
    }
  }

  lemma {:induction false} TotalAppend(uploads: seq<Upload>, row: Upload, key: CounterKey, status: ReservationStatus)
    ensures Total(uploads + [row], key, status) == Total(uploads, key, status) + Amount(row.reservations, key, status)
  {
    if uploads == [] {
      assert uploads + [row] == [row];
    } else {
      assert (uploads + [row])[1..] == uploads[1..] + [row];
      TotalAppend(uploads[1..], row, key, status);
    }
  }

  lemma {:induction false} TotalCovers(uploads: seq<Upload>, u: nat, key: CounterKey, status: ReservationStatus)
    requires u < |uploads|
    ensures Amount(uploads[u].reservations, key, status) <= Total(uploads, key, status)
  {
    if u > 0 {
      TotalCovers(uploads[1..], u - 1, key, status);
    }
  }

  lemma {:induction false} SettleBalances(
    db: Db, u: nat, status: SessionStatus, outcome: ReservationStatus, key: CounterKey)
    requires u < |db.uploads| && outcome != Held && Balanced(db, key)
    ensures Balanced(SettleUpload(db, u, status, outcome), key)
  {
    var row := db.uploads[u];
    var next := SettleRow(row, status, outcome);
    TotalCovers(db.uploads, u, key, Held);
    SettleIsExact(db.counters, row.reservations, outcome, key);
    SettledAmounts(row.reservations, outcome, key);
    TotalUpdate(db.uploads, u, next, key, Held);
    TotalUpdate(db.uploads, u, next, key, Consumed);
  }

  lemma {:induction false} RowKeepsBalance(db: Db, u: nat, row: Upload, key: CounterKey)
    requires u < |db.uploads| && row.reservations == db.uploads[u].reservations && Balanced(db, key)
    ensures Balanced(SetRow(db, u, row), key)
  {
    TotalUpdate(db.uploads, u, row, key, Held);
    TotalUpdate(db.uploads, u, row, key, Consumed);
  }

  /** Every operation keeps every counter equal to the sum it stands for. */
  lemma {:induction false} StepBalances(db: Db, op: Op, key: CounterKey)
    requires Commits(db, op) && Balanced(db, key)
    ensures Balanced(Commit(db, op), key)
  {
    match op
    case Initiate(expiresAt, specs) =>
      var row := Upload(Initiated, expiresAt, Reserve(specs));
      AdmittedAmounts(db.counters, specs, key);
      TotalAppend(db.uploads, row, key, Held);
      TotalAppend(db.uploads, row, key, Consumed);
    case BeginFinalize(u, now) => RowKeepsBalance(db, u, BeginFinalizeRow(db.uploads[u], now), key);
    case Complete(u) => SettleBalances(db, u, Completed, Consumed, key);
    case Reject(u) => SettleBalances(db, u, Failed, Released, key);
    case BeginAbort(u, now) => RowKeepsBalance(db, u, BeginAbortRow(db.uploads[u], now), key);
    case FinishAbort(u) => SettleBalances(db, u, db.uploads[u].status, Released, key);
    case Claim(_, u, now) => RowKeepsBalance(db, u, ClaimRow(db.uploads[u], now), key);
    case Publish(w) => SettleBalances(db, db.claims[w].u, Completed, Consumed, key);
    case Settle(w, rejected) =>
      var g := db.claims[w];
      SettleBalances(db, g.u, SettledStatus(db.uploads[g.u], g.original, rejected),
                     SettledOutcome(db.uploads[g.u], g.original, rejected), key);
    case Forget(_) =>
    case Charge(_, _, _) =>
  }

  // Every row fits its status, and the uploads being aborted are.
  ghost predicate RowsFit(db: Db) {
    && (forall u :: 0 <= u < |db.uploads| ==> RowConsistent(db.uploads[u]))
    && (forall u :: u in db.aborting ==> u < |db.uploads| && db.uploads[u].status == Aborted)
  }

  lemma RowFits(db: Db, u: nat, row: Upload)
    requires RowsFit(db) && u < |db.uploads| && RowConsistent(row) && (u in db.aborting ==> row.status == Aborted)
    ensures RowsFit(SetRow(db, u, row))
  {
  }

  lemma {:induction false} SettleFits(db: Db, u: nat, status: SessionStatus, outcome: ReservationStatus)
    requires RowsFit(db) && u < |db.uploads| && (u in db.aborting ==> status == Aborted)
    requires RowConsistent(SettleRow(db.uploads[u], status, outcome))
    ensures RowsFit(SettleUpload(db, u, status, outcome))
  {
    RowFits(db, u, SettleRow(db.uploads[u], status, outcome));
  }

  lemma {:induction false} StepKeepsRows(db: Db, op: Op)
    requires Commits(db, op) && RowsFit(db)
    ensures RowsFit(Commit(db, op))
  {
    match op
    case Initiate(_, _) =>
    case Charge(_, _, _) =>
    case BeginFinalize(u, now) => RowFits(db, u, BeginFinalizeRow(db.uploads[u], now));
    case BeginAbort(u, now) => RowFits(db, u, BeginAbortRow(db.uploads[u], now));
    case Claim(_, u, now) => RowFits(db, u, ClaimRow(db.uploads[u], now));
    case Complete(u) => SettleFits(db, u, Completed, Consumed);
    case Reject(u) => SettleFits(db, u, Failed, Released);
    case FinishAbort(u) => SettleFits(db, u, db.uploads[u].status, Released);
    case Publish(w) => PublishFits(db, db.claims[w]);
    case Settle(w, rejected) => SettleClaimFits(db, db.claims[w], rejected);
    case Forget(_) =>
  }

  lemma {:induction false} PublishFits(db: Db, g: Granted)
    requires RowsFit(db) && g.u < |db.uploads|
    ensures RowsFit(PublishClaim(db, g))
  {
    if db.uploads[g.u].status == Finalizing {
      SettleFits(db, g.u, Completed, Consumed);
    }
  }

  lemma {:induction false} SettleClaimFits(db: Db, g: Granted, rejected: bool)
    requires RowsFit(db) && g.u < |db.uploads|
    ensures RowsFit(SettleClaim(db, g, rejected))
  {
    var row := db.uploads[g.u];
    if row.status != Completed {
      SettleFits(db, g.u, SettledStatus(row, g.original, rejected), SettledOutcome(row, g.original, rejected));
    }
  }

  lemma {:induction false} StepKeepsClaims(db: Db, op: Op)
    requires Commits(db, op) && ClaimsFit(db)
    ensures ClaimsFit(Commit(db, op))
  {
    StepExtends(db, op);
  }

  lemma {:induction false} StepKeepsInv(db: Db, op: Op)
    requires Inv(db)
    ensures Inv(Apply(db, op))
  {
    if Commits(db, op) {
      StepKeepsRows(db, op);
      StepKeepsClaims(db, op);
      forall key ensures Balanced(Commit(db, op), key) {
        StepBalances(db, op, key);
      }
    }
  }

  lemma {:induction false} RunKeepsInv(db: Db, ops: seq<Op>)
    requires Inv(db)
    ensures Inv(Run(db, ops))
    decreases |ops|
  {
    if ops != [] {
      StepKeepsInv(db, ops[0]);
      RunKeepsInv(Apply(db, ops[0]), ops[1..]);
    }
  }

  /** In every run, counters balance and every row's reservations fit its session status. */
  lemma {:induction false} EveryRunConserves(ops: seq<Op>)
    ensures Inv(Run(EMPTY, ops))
  {
    RunKeepsInv(EMPTY, ops);
  }

  lemma {:induction false} RunSnoc(db: Db, ops: seq<Op>, op: Op)
    ensures Run(db, ops + [op]) == Apply(Run(db, ops), op)
    decreases |ops|
  {
    if ops == [] {
      assert ops + [op] == [op];
      assert Run(db, [op]) == Run(Apply(db, op), []);
    } else {
      assert (ops + [op])[1..] == ops[1..] + [op];
      RunSnoc(Apply(db, ops[0]), ops[1..], op);
    }
  }

  lemma {:induction false} RunTwo(db: Db, a: Op, b: Op)
    ensures Run(db, [a, b]) == Apply(Apply(db, a), b)
  {
    assert [a, b][1..] == [b] && [b][1..] == [];
    assert Run(Apply(db, a), [b]) == Run(Apply(Apply(db, a), b), []);
  }

  predicate SameClaimOnQuota(a: Reservation, b: Reservation) {
    a.key == b.key && a.amount == b.amount && (a.status != Held ==> b.status == a.status)
  }

  predicate Extends(a: Db, b: Db) {
    && |a.uploads| <= |b.uploads|
    && (forall u :: 0 <= u < |a.uploads| ==>
          && |a.uploads[u].reservations| == |b.uploads[u].reservations|
          && (a.uploads[u].status in {Completed, Aborted} ==> b.uploads[u].status == a.uploads[u].status))
    && (forall u, i :: 0 <= u < |a.uploads| && 0 <= i < |a.uploads[u].reservations| ==>
          SameClaimOnQuota(a.uploads[u].reservations[i], b.uploads[u].reservations[i]))
  }

  /**
    From any state, along any run: no reservation is dropped or resized, a settled reservation
    never changes again (so it leaves HELD at most once), and COMPLETED and ABORTED are final.
   */
  lemma {:induction false} SettledForever(db: Db, ops: seq<Op>)
    ensures Extends(db, Run(db, ops))
    decreases |ops|
  {
    if ops != [] {
      var next := Apply(db, ops[0]);
      StepExtends(db, ops[0]);
      SettledForever(next, ops[1..]);
      ExtendsTransitive(db, next, Run(next, ops[1..]));
    }
  }

  lemma {:induction false} StepExtends(db: Db, op: Op)
    ensures Extends(db, Apply(db, op))
  {
    if Commits(db, op) {
      match op
      case Complete(u) => SettleExtends(db, u, Completed, Consumed);
      case Reject(u) => SettleExtends(db, u, Failed, Released);
      case FinishAbort(u) => SettleExtends(db, u, db.uploads[u].status, Released);
      case Publish(w) =>
        if db.uploads[db.claims[w].u].status == Finalizing {
          SettleExtends(db, db.claims[w].u, Completed, Consumed);
        }
      case Settle(w, rejected) =>
        var g := db.claims[w];
        if db.uploads[g.u].status != Completed {
          SettleExtends(db, g.u, SettledStatus(db.uploads[g.u], g.original, rejected),
            SettledOutcome(db.uploads[g.u], g.original, rejected));
        }
      case Forget(_) =>
      case BeginFinalize(u, now) => RowExtends(db, u, BeginFinalizeRow(db.uploads[u], now));
      case BeginAbort(u, now) => RowExtends(db, u, BeginAbortRow(db.uploads[u], now));
      case Claim(_, u, now) => RowExtends(db, u, ClaimRow(db.uploads[u], now));
      case Initiate(_, _) =>
      case Charge(_, _, _) =>
    }
  }

  lemma RowExtends(db: Db, u: nat, row: Upload)
    requires u < |db.uploads| && |row.reservations| == |db.uploads[u].reservations|
    requires db.uploads[u].status in {Completed, Aborted} ==> row.status == db.uploads[u].status
    requires forall i :: 0 <= i < |row.reservations| ==>
             SameClaimOnQuota(db.uploads[u].reservations[i], row.reservations[i])
    ensures Extends(db, SetRow(db, u, row))
  {
  }

  lemma {:induction false} SettleExtends(db: Db, u: nat, status: SessionStatus, outcome: ReservationStatus)
    requires u < |db.uploads|
    requires db.uploads[u].status in {Completed, Aborted} ==> status == db.uploads[u].status
    ensures Extends(db, SettleUpload(db, u, status, outcome))
  {
    RowExtends(db, u, SettleRow(db.uploads[u], status, outcome));
  }

  lemma {:induction false} ExtendsTransitive(a: Db, b: Db, c: Db)
    requires Extends(a, b) && Extends(b, c)
    ensures Extends(a, c)
  {
    forall u, i | 0 <= u < |a.uploads| && 0 <= i < |a.uploads[u].reservations|
      ensures SameClaimOnQuota(a.uploads[u].reservations[i], c.uploads[u].reservations[i])
    {
      assert SameClaimOnQuota(a.uploads[u].reservations[i], b.uploads[u].reservations[i]);
      assert SameClaimOnQuota(b.uploads[u].reservations[i], c.uploads[u].reservations[i]);
    }
  }

  /**
    Nothing is stranded: in every state a run can reach, a row that still holds quota is claimed once its lease
    runs out, and one undisturbed claim-and-settle pass leaves it terminal with nothing held.
   */
  lemma {:induction false} HeldQuotaIsRecoverable(db: Db, w: Worker, u: nat, now: real, rejected: bool)
    requires Inv(db) && u < |db.uploads| && w !in db.claims
    requires HasHeld(db.uploads[u].reservations) && db.uploads[u].expiresAt < now
    ensures var done := Run(db, [Claim(w, u, now), Settle(w, rejected)]);
            && Commits(db, Claim(w, u, now))
            && |done.uploads| == |db.uploads|
            && !HasHeld(done.uploads[u].reservations)
            && done.uploads[u].status in {Aborted, Failed, Expired}
            && (forall v :: 0 <= v < |db.uploads| && v != u ==> done.uploads[v] == db.uploads[v])
  {
    assert RowConsistent(db.uploads[u]);
    RunTwo(db, Claim(w, u, now), Settle(w, rejected));
  }

  predicate OpUsesLimit(op: Op, key: CounterKey, limit: nat) {
    match op
    case Initiate(_, specs) => UsesLimit(specs, key, limit)
    case Charge(k, _, l) => k == key ==> l == Some(limit)
    case _ => true
  }

  function Load(db: Db, key: CounterKey): nat {
    Get(db.counters, key).used + Get(db.counters, key).reserved
  }

  lemma {:induction false} StepRespectsLimit(db: Db, op: Op, key: CounterKey, limit: nat)
    requires Inv(db) && OpUsesLimit(op, key, limit) && Load(db, key) <= limit
    ensures Load(Apply(db, op), key) <= limit
  {
    assert Balanced(db, key);
    if Commits(db, op) {
      match op
      case Initiate(_, specs) => AdmissionRespectsLimit(db.counters, specs, key, limit);
      case Complete(u) => SettleLoad(db, u, Completed, Consumed, key);
      case Reject(u) => SettleLoad(db, u, Failed, Released, key);
      case FinishAbort(u) => SettleLoad(db, u, db.uploads[u].status, Released, key);
      case Publish(w) => SettleLoad(db, db.claims[w].u, Completed, Consumed, key);
      case Settle(w, rejected) =>
        var g := db.claims[w];
        SettleLoad(db, g.u, SettledStatus(db.uploads[g.u], g.original, rejected),
                   SettledOutcome(db.uploads[g.u], g.original, rejected), key);
      case _ =>
    }
  }

  lemma {:induction false} SettleLoad(
    db: Db, u: nat, status: SessionStatus, outcome: ReservationStatus, key: CounterKey)
    requires u < |db.uploads| && outcome != Held && Balanced(db, key)
    ensures Load(SettleUpload(db, u, status, outcome), key) <= Load(db, key)
  {
    TotalCovers(db.uploads, u, key, Held);
    SettleIsExact(db.counters, db.uploads[u].reservations, outcome, key);
  }

  /**
    Over every run in which a counter is always checked against the same limit, used plus
    reserved never exceeds it. Without exact balances the clamp in settlement would break this.
   */
  lemma {:induction false} LimitHoldsInEveryRun(db: Db, ops: seq<Op>, key: CounterKey, limit: nat)
    requires Inv(db) && Load(db, key) <= limit
    requires forall i :: 0 <= i < |ops| ==> OpUsesLimit(ops[i], key, limit)
    ensures Load(Run(db, ops), key) <= limit
    decreases |ops|
  {
    if ops != [] {
      StepKeepsInv(db, ops[0]);
      StepRespectsLimit(db, ops[0], key, limit);
      LimitHoldsInEveryRun(Apply(db, ops[0]), ops[1..], key, limit);
    }
  }
}
