/**
  The offline runtime collection (scripts/collect_offline_runtime_evidence.py): a fixed sequence
  of control steps, network snapshots and policy checks, any of which may raise, with recovery in
  a `finally` block.

  A phase that succeeds records an artifact under its own name, and the artifact store refuses a
  name that it has recorded before.
 */
module OfflineCollection {
  import opened Sequences

  datatype Mode = StrictOffline | ControlledGateway

  // The commands of the control plan.
  datatype Command =
    | RecoveryPreflight | RollbackArm | NetworkDisconnect | ColdStart
    | Login | Rbac | Acl | Upload | Approval | Download | QuestionAnswer
    | PersistenceWrite | Restart | PersistenceVerify
    | NetworkRestore | RollbackCancel | RecoveryVerify

  datatype Moment = Before | Offline | PostColdStart | PostBusiness | Restored

  datatype Phase = Control(command: Command) | Snapshot(at: Moment) | Policy(at: Moment)

  // Ok, CollectionBlocked, or any other exception.
  datatype Outcome = Ok | Blocked | Crashed

  // One attempted phase. A control step whose command is malformed is blocked before it is issued.
  datatype Attempt = Attempt(phase: Phase, issued: bool, outcome: Outcome)

  // What the outside world decides: whether a control command is well formed in the plan, and how
  // the n-th attempt ends once its command has been issued.
  datatype World = World(wellFormed: Command -> bool, ends: nat -> Outcome)

  const DISCONNECT := Control(NetworkDisconnect)
  const RESTORE := Control(NetworkRestore)
  const CANCEL := Control(RollbackCancel)
  const VERIFY := Control(RecoveryVerify)

  const PREPARE: seq<Phase> := [Control(RecoveryPreflight), Snapshot(Before), Control(RollbackArm)]

  const BUSINESS: seq<Phase> :=
    [Control(Login), Control(Rbac), Control(Acl), Control(Upload), Control(Approval), Control(Download),
     Control(QuestionAnswer), Control(PersistenceWrite), Control(Restart), Control(PersistenceVerify)]

  function PolicyPhase(mode: Mode, at: Moment): seq<Phase> {
    if mode == ControlledGateway then [Policy(at)] else []
  }

  // From the disconnection to the last check that needs it.
  function WhileOffline(mode: Mode): seq<Phase> {
    [DISCONNECT, Snapshot(Offline), Control(ColdStart), Snapshot(PostColdStart)] + PolicyPhase(mode, PostColdStart)
    + BUSINESS + [Snapshot(PostBusiness)] + PolicyPhase(mode, PostBusiness)
  }

  // Everything that must succeed, in order, before the evidence document is written.
  function Mandatory(mode: Mode): seq<Phase> {
    PREPARE + WhileOffline(mode) + [RESTORE] + [CANCEL, VERIFY] + [Snapshot(Restored)]
  }

  predicate WellFormed(world: World, phase: Phase) { phase.Control? ==> world.wellFormed(phase.command) }

  // The phase has succeeded before, so that its artifact is in the store.
  predicate Recorded(log: seq<Attempt>, phase: Phase) {
    exists i :: 0 <= i < |log| && log[i].phase == phase && log[i].outcome == Ok
  }

  function Try(world: World, log: seq<Attempt>, phase: Phase): Attempt {
    if !WellFormed(world, phase) then Attempt(phase, false, Blocked)
    else Attempt(phase, true, if world.ends(|log|) == Ok && Recorded(log, phase) then Blocked else world.ends(|log|))
  }

  // Every attempt issued its command exactly when the plan has a well-formed one.
  predicate IssuedIffWellFormed(log: seq<Attempt>, world: World) {
    forall i :: 0 <= i < |log| ==> (log[i].issued <==> WellFormed(world, log[i].phase))
  }

  // Every phase succeeds, and records its artifact, at most once.
  predicate RecordedOnce(log: seq<Attempt>) {
    forall i, j :: 0 <= i < j < |log| && log[i].phase == log[j].phase && log[i].outcome == Ok ==> log[j].outcome != Ok
  }

  predicate Sound(log: seq<Attempt>, world: World) { IssuedIffWellFormed(log, world) && RecordedOnce(log) }

  // What distinct phases need in order to succeed one after the other.
  predicate CanSucceed(world: World, start: seq<Attempt>, phases: seq<Phase>) {
    forall k :: 0 <= k < |phases| ==> Ready(world, start, phases[k], |start| + k)
  }

  predicate Ready(world: World, start: seq<Attempt>, phase: Phase, n: nat) {
    WellFormed(world, phase) && world.ends(n) == Ok && !Recorded(start, phase)
  }

  // The log of phases that were all issued and all succeeded.
  function Successes(phases: seq<Phase>): (log: seq<Attempt>)
    ensures |log| == |phases|
    ensures forall i :: 0 <= i < |phases| ==> log[i] == Attempt(phases[i], true, Ok)
  {
    seq(|phases|, i requires 0 <= i < |phases| => Attempt(phases[i], true, Ok))
  }

  lemma SuccessesConcat(a: seq<Phase>, b: seq<Phase>)
    ensures Successes(a + b) == Successes(a) + Successes(b)
  {
  }

  // Runs phases until one raises.
  method Steps(world: World, start: seq<Attempt>, phases: seq<Phase>) returns (log: seq<Attempt>, outcome: Outcome)
    requires Sound(start, world)
    ensures start <= log && |log| <= |start| + |phases| && Sound(log, world)
    ensures NoDuplicates(phases) ==> (outcome == Ok <==> CanSucceed(world, start, phases))
    ensures outcome == Ok ==> log == start + Successes(phases)
    ensures outcome != Ok ==> |start| < |log| && log[|log| - 1].outcome == outcome
    ensures phases != [] ==> |start| < |log|
    ensures forall i :: |start| <= i < |log| ==> log[i].phase == phases[i - |start|]
    ensures forall i :: |start| <= i < |log| - 1 ==> log[i].outcome == Ok
  {
    log, outcome := start, Ok;
    var i := 0;
    while i < |phases| && outcome == Ok
      invariant 0 <= i <= |phases| && start <= log && Sound(log, world)
      invariant |log| == |start| + i
      invariant NoDuplicates(phases) ==> (outcome == Ok <==> CanSucceed(world, start, phases[..i]))
      invariant outcome == Ok ==> log == start + Successes(phases)[..i]
      invariant outcome != Ok ==> |start| < |log| && log[|log| - 1].outcome == outcome
      invariant forall j :: |start| <= j < |log| ==> log[j].phase == phases[j - |start|]
      invariant forall j :: |start| <= j < |log| - 1 ==> log[j].outcome == Ok
    {
      if NoDuplicates(phases) {
        RecordedAfter(start, phases, i);
      }
      CanSucceedStep(world, start, phases, i);
      log, outcome := Step(world, log, phases[i]);
      i := i + 1;
    }
    CanSucceedPrefix(world, start, phases, i);
    assert i == |phases| ==> phases[..i] == phases;
  }

  lemma {:induction false} CanSucceedStep(world: World, start: seq<Attempt>, phases: seq<Phase>, i: nat)
    requires i < |phases|
    ensures CanSucceed(world, start, phases[..i + 1]) <==>
              CanSucceed(world, start, phases[..i]) && Ready(world, start, phases[i], |start| + i)
  {
    var longer, shorter := phases[..i + 1], phases[..i];
    assert longer[i] == phases[i] && forall k :: 0 <= k < i ==> longer[k] == shorter[k];
  }

  lemma {:induction false} CanSucceedPrefix(world: World, start: seq<Attempt>, phases: seq<Phase>, i: nat)
    requires i <= |phases|
    ensures CanSucceed(world, start, phases) ==> CanSucceed(world, start, phases[..i])
  {
    assert forall k :: 0 <= k < i ==> phases[..i][k] == phases[k];
  }

  method Step(world: World, start: seq<Attempt>, phase: Phase) returns (log: seq<Attempt>, outcome: Outcome)
    requires Sound(start, world)
    ensures |log| == |start| + 1 && start <= log && Sound(log, world)
    ensures log[|start|].phase == phase && log[|start|].outcome == outcome && (outcome == Ok ==> log[|start|].issued)
    ensures outcome == Ok <==> Ready(world, start, phase, |start|)
  {
    var a := Try(world, start, phase);
    log, outcome := start + [a], a.outcome;
  }

  // Distinct phases that have succeeded so far record nothing for the next one.
  lemma {:induction false} RecordedAfter(start: seq<Attempt>, phases: seq<Phase>, i: nat)
    requires NoDuplicates(phases) && i < |phases|
    ensures Recorded(start + Successes(phases)[..i], phases[i]) <==> Recorded(start, phases[i])
  {
    var log := start + Successes(phases)[..i];
    if Recorded(start, phases[i]) {
      var j :| 0 <= j < |start| && start[j].phase == phases[i] && start[j].outcome == Ok;
      assert log[j] == start[j];
    }
  }

  predicate Absent(log: seq<Attempt>, phase: Phase) { forall i :: 0 <= i < |log| ==> log[i].phase != phase }

  predicate NoRecovery(phases: seq<Phase>) {
    forall i :: 0 <= i < |phases| ==> phases[i] !in {RESTORE, CANCEL, VERIFY}
  }

  predicate NoDisconnect(phases: seq<Phase>) { forall i :: 0 <= i < |phases| ==> phases[i] != DISCONNECT }

  // The phases up to the restore; the first offline one disconnects.
  predicate Staged(prepare: seq<Phase>, offline: seq<Phase>) {
    && NoRecovery(prepare) && NoDisconnect(prepare) && NoRecovery(offline)
    && NoDuplicates(prepare) && offline != [] && offline[0] == DISCONNECT
  }

  lemma QuietPhases(mode: Mode)
    ensures Staged(PREPARE, WhileOffline(mode))
  {
  }

  predicate Failing(log: seq<Attempt>) { exists i :: 0 <= i < |log| && log[i].outcome != Ok }

  // The first parts of the try block, up to and including the restore.
  method GoOffline(prepare: seq<Phase>, offline: seq<Phase>, world: World)
    returns (log: seq<Attempt>, outcome: Outcome, disconnectAttempted: bool, restored: bool)
    requires Staged(prepare, offline)
    ensures Sound(log, world) && Absent(log, CANCEL) && Absent(log, VERIFY)
    ensures disconnectAttempted <==> CanSucceed(world, [], prepare)
    ensures disconnectAttempted <==> !Absent(log, DISCONNECT)
    ensures disconnectAttempted ==> Successes(prepare) <= log
    ensures outcome == Ok <==> restored
    ensures restored <==> Recorded(log, RESTORE)
    ensures restored ==>
              && disconnectAttempted
              && log == Successes(prepare + offline + [RESTORE])
              && log[|log| - 1] == Attempt(RESTORE, true, Ok)
    ensures outcome != Ok ==> Failing(log)
  {
    restored := false;
    log, outcome, disconnectAttempted := Isolate(prepare, offline, world);
    if outcome == Ok {
      SuccessesConcat(prepare + offline, [RESTORE]);
      ghost var before := log;
      log, outcome := Step(world, log, RESTORE);
      restored := outcome == Ok;
      assert forall i :: 0 <= i < |before| ==> log[i] == before[i];
    }
  }

  // The phases before and during isolation.
  method Isolate(prepare: seq<Phase>, offline: seq<Phase>, world: World)
    returns (log: seq<Attempt>, outcome: Outcome, disconnectAttempted: bool)
    requires Staged(prepare, offline)
    ensures Sound(log, world) && Absent(log, RESTORE) && Absent(log, CANCEL) && Absent(log, VERIFY)
    ensures disconnectAttempted <==> CanSucceed(world, [], prepare)
    ensures disconnectAttempted <==> !Absent(log, DISCONNECT)
    ensures disconnectAttempted ==> Successes(prepare) <= log
    ensures outcome == Ok ==> disconnectAttempted && log == Successes(prepare + offline)
    ensures outcome != Ok ==> Failing(log)
  {
    disconnectAttempted := false;
    log, outcome := Steps(world, [], prepare);
    if outcome == Ok {
      disconnectAttempted := true;
      ghost var prepared := log;
      log, outcome := Steps(world, log, offline);
      assert log[|prepared|].phase == DISCONNECT;
      assert forall i :: 0 <= i < |prepared| ==> log[i] == prepared[i];
      SuccessesConcat(prepare, offline);
    }
  }

  // What is known when control leaves: see ExecuteCollection.
  predicate RestoreTriedAfter(log: seq<Attempt>, d: nat) {
    exists r :: d < r < |log| && log[r].phase == RESTORE
  }

  predicate RestoreIssuedAfter(log: seq<Attempt>, d: nat) {
    exists r :: d < r < |log| && log[r].phase == RESTORE && log[r].issued
  }

  predicate RestoredBefore(log: seq<Attempt>, c: nat) {
    exists r :: 0 <= r < c && r < |log| && log[r].phase == RESTORE && log[r].outcome == Ok
  }

  predicate EndsRecoveredOrFailing(log: seq<Attempt>) {
    || Recorded(log, VERIFY)
    || (log != [] && log[|log| - 1].phase in {RESTORE, CANCEL, VERIFY} && log[|log| - 1].outcome != Ok)
  }

  predicate VerifyNotRetried(log: seq<Attempt>) {
    forall i, j :: 0 <= i < j < |log| && log[i].phase == VERIFY ==> log[j].phase != VERIFY
  }

  // A verification directly follows a successful cancellation.
  predicate VerifyAfterCancel(log: seq<Attempt>) {
    forall v :: 0 <= v < |log| && log[v].phase == VERIFY ==>
                  0 < v && log[v - 1].phase == CANCEL && log[v - 1].outcome == Ok
  }

  predicate RecoveryKept(log: seq<Attempt>) {
    && (forall d :: 0 <= d < |log| && log[d].phase == DISCONNECT ==> RestoreTriedAfter(log, d))
    && (forall c :: 0 <= c < |log| && log[c].phase == CANCEL ==> RestoredBefore(log, c))
    && (!Absent(log, DISCONNECT) ==> EndsRecoveredOrFailing(log))
    && VerifyNotRetried(log) && VerifyAfterCancel(log)
  }

  // The log ends with a restore at `r` and cleanup after it, none of it before.
  lemma {:induction false} RestoreThenCleanup(log: seq<Attempt>, r: nat)
    requires r < |log| && log[r].phase == RESTORE
    requires forall i :: 0 <= i < r ==> log[i].phase != CANCEL
    requires forall i :: r < i < |log| ==> log[i].phase != DISCONNECT
    requires log[r].outcome == Ok || r == |log| - 1
    requires EndsRecoveredOrFailing(log) && VerifyNotRetried(log) && VerifyAfterCancel(log)
    ensures RecoveryKept(log)
  {
    forall d | 0 <= d < |log| && log[d].phase == DISCONNECT ensures RestoreTriedAfter(log, d) {
      assert d < r;
    }
    forall c | 0 <= c < |log| && log[c].phase == CANCEL ensures RestoredBefore(log, c) {
      assert r < c;
    }
  }

  // Cancelling the rollback and verifying the recovery, for the first time.
  method CancelAndVerify(world: World, start: seq<Attempt>) returns (log: seq<Attempt>, outcome: Outcome)
    requires Sound(start, world) && Absent(start, VERIFY)
    ensures start <= log && Sound(log, world)
    ensures outcome == Ok ==> log == start + Successes([CANCEL, VERIFY])
    ensures outcome != Ok ==> Failing(log)
    ensures forall i :: |start| <= i < |log| ==> log[i].phase !in {DISCONNECT, RESTORE}
    ensures outcome == Ok <==> Recorded(log, VERIFY)
    ensures VerifyNotRetried(log) && VerifyAfterCancel(log) && (!Absent(log, VERIFY) ==> Recorded(log, CANCEL))
  {
    log, outcome := Steps(world, start, [CANCEL, VERIFY]);
    assert forall i :: 0 <= i < |start| ==> log[i].phase != VERIFY;
    assert |start| + 1 < |log| ==> log[|start|].phase == CANCEL && log[|start|].outcome == Ok;
    if outcome == Ok {
      assert log[|start| + 1] == Attempt(VERIFY, true, Ok);
    }
  }

  // The rest of the try block, once the network is restored.
  method FinishOnline(main: seq<Phase>, world: World, start: seq<Attempt>)
    returns (log: seq<Attempt>, outcome: Outcome, recoveryCompleted: bool)
    requires start == Successes(main) && Sound(start, world) && Absent(start, VERIFY)
    ensures start <= log && Sound(log, world)
    ensures outcome == Ok ==> recoveryCompleted && log == Successes(main + [CANCEL, VERIFY] + [Snapshot(Restored)])
    ensures outcome != Ok ==> Failing(log)
    ensures forall i :: |start| <= i < |log| ==> log[i].phase !in {DISCONNECT, RESTORE}
    ensures recoveryCompleted <==> Recorded(log, VERIFY)
    ensures VerifyNotRetried(log) && VerifyAfterCancel(log) && (!Absent(log, VERIFY) ==> Recorded(log, CANCEL))
  {
    log, outcome := CancelAndVerify(world, start);
    recoveryCompleted := outcome == Ok;
    if outcome == Ok {
      SuccessesConcat(main, [CANCEL, VERIFY]);
      SuccessesConcat(main + [CANCEL, VERIFY], [Snapshot(Restored)]);
      ghost var verified := log;
      log, outcome := Step(world, log, Snapshot(Restored));
      assert forall i :: 0 <= i < |verified| ==> log[i] == verified[i];
      assert log == verified + [log[|verified|]];
    }
  }

  // What the finally block has to do.
  function RecoveryPhases(restored: bool): seq<Phase> { (if restored then [] else [RESTORE]) + [CANCEL, VERIFY] }

  // The finally block, when it has something to do. An artifact recorded before stops it.
  method Recover(world: World, start: seq<Attempt>, restored: bool) returns (log: seq<Attempt>, cleanup: Outcome)
    requires Sound(start, world)
    ensures start <= log && |start| < |log| && Sound(log, world)
    ensures cleanup == Ok <==> CanSucceed(world, start, RecoveryPhases(restored))
    ensures forall i :: |start| <= i < |log| ==> log[i].phase in {RESTORE, CANCEL, VERIFY}
    ensures forall i :: |start| <= i < |log| - 1 ==> log[i].phase != VERIFY
    ensures EndsRecoveredOrFailing(log)
    ensures !restored ==> log[|start|].phase == RESTORE && (log[|start|].outcome == Ok || |log| == |start| + 1)
    ensures Recorded(start, CANCEL) ==> forall i :: |start| <= i < |log| ==> log[i].phase != VERIFY
    ensures VerifyAfterCancel(start) ==> VerifyAfterCancel(log)
  {
    var phases := RecoveryPhases(restored);
    log, cleanup := Steps(world, start, phases);
    if cleanup == Ok {
      assert log[|log| - 1] == Attempt(VERIFY, true, Ok);
    }
    VerifyFollowsCancel(start, log, phases);
    assert forall i :: 0 <= i < |start| ==> log[i] == start[i];
  }

  // In the recovery a verification follows a cancellation that has just been recorded.
  lemma {:induction false} VerifyFollowsCancel(start: seq<Attempt>, log: seq<Attempt>, phases: seq<Phase>)
    requires phases in {RecoveryPhases(true), RecoveryPhases(false)}
    requires start <= log && |log| <= |start| + |phases| && RecordedOnce(log)
    requires forall i :: |start| <= i < |log| ==> log[i].phase == phases[i - |start|]
    requires forall i :: |start| <= i < |log| - 1 ==> log[i].outcome == Ok
    ensures forall i :: |start| <= i < |log| && log[i].phase == VERIFY ==>
                          |start| < i && log[i - 1].phase == CANCEL && !Recorded(start, CANCEL)
  {
    forall i | |start| <= i < |log| && log[i].phase == VERIFY
      ensures |start| < i && log[i - 1].phase == CANCEL && !Recorded(start, CANCEL)
    {
      assert log[i - 1].phase == phases[i - 1 - |start|] == CANCEL;
      forall c | 0 <= c < |start| && start[c].phase == CANCEL ensures start[c].outcome != Ok {
        assert log[c] == start[c];
      }
    }
  }

  ghost predicate CanRecover(wellFormed: Command -> bool, start: seq<Attempt>, restored: bool) {
    exists ends: nat -> Outcome :: CanSucceed(World(wellFormed, ends), start, RecoveryPhases(restored))
  }

  /**
    Recovery of a run with well-formed recovery commands that has not verified it yet, and has
    recorded a restore only if it is restored, can still complete exactly when no cancellation
    has been recorded: after a recorded cancellation a failed verification is final.
   */
  lemma {:induction false} CanRecoverIff(wellFormed: Command -> bool, start: seq<Attempt>, restored: bool)
    requires wellFormed(NetworkRestore) && wellFormed(RollbackCancel) && wellFormed(RecoveryVerify)
    requires !Recorded(start, VERIFY) && (Recorded(start, RESTORE) ==> restored)
    ensures CanRecover(wellFormed, start, restored) <==> !Recorded(start, CANCEL)
  {
    var phases, good := RecoveryPhases(restored), World(wellFormed, _ => Ok);
    if Recorded(start, CANCEL) {
      assert phases[|phases| - 2] == CANCEL;
    } else {
      assert CanSucceed(good, start, phases);
    }
  }

  // The try block.
  method TryBlock(prepare: seq<Phase>, offline: seq<Phase>, world: World)
    returns (log: seq<Attempt>, outcome: Outcome, disconnectAttempted: bool, restored: bool, recoveryCompleted: bool,
             ghost r: nat)
    requires Staged(prepare, offline)
    ensures Sound(log, world) && VerifyNotRetried(log) && VerifyAfterCancel(log)
    ensures disconnectAttempted <==> CanSucceed(world, [], prepare)
    ensures disconnectAttempted <==> !Absent(log, DISCONNECT)
    ensures disconnectAttempted ==> Successes(prepare) <= log
    ensures outcome == Ok ==>
              disconnectAttempted && recoveryCompleted
              && log == Successes(prepare + offline + [RESTORE] + [CANCEL, VERIFY] + [Snapshot(Restored)])
    ensures outcome != Ok ==> Failing(log)
    ensures recoveryCompleted <==> Recorded(log, VERIFY)
    ensures recoveryCompleted ==> restored
    ensures !Absent(log, VERIFY) ==> Recorded(log, CANCEL)
    // The restore is at `r`, with nothing but cleanup after it.
    ensures r <= |log| && (forall i :: 0 <= i < r ==> log[i].phase != CANCEL)
    ensures forall i :: r < i < |log| ==> log[i].phase != DISCONNECT
    ensures restored ==> disconnectAttempted && r < |log| && log[r] == Attempt(RESTORE, true, Ok)
    ensures !restored ==> r == |log|
  {
    recoveryCompleted := false;
    log, outcome, disconnectAttempted, restored := GoOffline(prepare, offline, world);
    ghost var offlineLog := log;
    r := if restored then |log| - 1 else |log|;
    if outcome == Ok {
      log, outcome, recoveryCompleted := FinishOnline(prepare + offline + [RESTORE], world, log);
      assert forall i :: 0 <= i < |offlineLog| ==> log[i] == offlineLog[i];
    }
  }

  // The body of execute_collection for given phases before and during isolation.
  method Collect(prepare: seq<Phase>, offline: seq<Phase>, world: World) returns (log: seq<Attempt>, evidence: bool)
    requires Staged(prepare, offline)
    ensures evidence <==> log == Successes(prepare + offline + [RESTORE] + [CANCEL, VERIFY] + [Snapshot(Restored)])
    ensures Sound(log, world) && RecoveryKept(log)
    ensures !Absent(log, DISCONNECT) <==> CanSucceed(world, [], prepare)
    ensures !Absent(log, DISCONNECT) ==> Successes(prepare) <= log
  {
    ghost var r;
    var outcome, disconnectAttempted, restored, recoveryCompleted;
    log, outcome, disconnectAttempted, restored, recoveryCompleted, r := TryBlock(prepare, offline, world);
    ghost var tried := log;
    // finally:
    if disconnectAttempted && !recoveryCompleted {
      var cleanup;
      log, cleanup := Recover(world, log, restored);
      if cleanup != Ok {
        outcome := cleanup;
      }
    }
    evidence := outcome == Ok;
    assert forall i :: 0 <= i < |tried| ==> log[i] == tried[i];
    assert outcome != Ok ==> Failing(tried);
    if disconnectAttempted {
      assert VerifyNotRetried(log);
      RestoreThenCleanup(log, r);
    }
  }

  // ---- what a log says, phase by phase ----

  predicate SucceededBefore(log: seq<Attempt>, phase: Phase, n: nat) {
    exists i :: 0 <= i < n && i < |log| && log[i] == Attempt(phase, true, Ok)
  }

  // The network is never cut before recovery was checked, the network recorded and the rollback armed.
  predicate ArmedBeforeDisconnect(log: seq<Attempt>) {
    forall d :: 0 <= d < |log| && log[d].phase == Control(NetworkDisconnect) ==>
                  && SucceededBefore(log, Control(RecoveryPreflight), d)
                  && SucceededBefore(log, Snapshot(Before), d)
                  && SucceededBefore(log, Control(RollbackArm), d)
  }

  lemma {:induction false} PreparedMeansArmed(log: seq<Attempt>)
    requires !Absent(log, DISCONNECT) ==> Successes(PREPARE) <= log
    ensures ArmedBeforeDisconnect(log)
  {
    forall d | 0 <= d < |log| && log[d].phase == Control(NetworkDisconnect)
      ensures SucceededBefore(log, Control(RecoveryPreflight), d)
              && SucceededBefore(log, Snapshot(Before), d) && SucceededBefore(log, Control(RollbackArm), d)
    {
      assert log[0] == Successes(PREPARE)[0] == Attempt(Control(RecoveryPreflight), true, Ok);
      assert log[1] == Successes(PREPARE)[1] == Attempt(Snapshot(Before), true, Ok);
      assert log[2] == Successes(PREPARE)[2] == Attempt(Control(RollbackArm), true, Ok);
    }
  }

  // The place of every phase in a complete collection.
  function Rank(phase: Phase): nat {
    match phase
    case Control(c) =>
      (match c
       case RecoveryPreflight => 0 case RollbackArm => 2 case NetworkDisconnect => 3 case ColdStart => 5
       case Login => 8 case Rbac => 9 case Acl => 10 case Upload => 11 case Approval => 12 case Download => 13
       case QuestionAnswer => 14 case PersistenceWrite => 15 case Restart => 16 case PersistenceVerify => 17
       case NetworkRestore => 20 case RollbackCancel => 21 case RecoveryVerify => 22)
    case Snapshot(m) =>
      (match m case Before => 1 case Offline => 4 case PostColdStart => 6 case PostBusiness => 18 case Restored => 23)
    case Policy(m) => if m == PostColdStart then 7 else 19
  }

  // The policy is checked twice, and only behind a gateway.
  predicate Required(mode: Mode, phase: Phase) {
    phase.Policy? ==> mode == ControlledGateway && phase.at in {PostColdStart, PostBusiness}
  }

  // Everything required has succeeded, nothing else was tried, and the phases came in their order.
  ghost predicate Complete(log: seq<Attempt>, mode: Mode) {
    && (forall phase :: Required(mode, phase) ==> Attempt(phase, true, Ok) in log)
    && (forall i :: 0 <= i < |log| ==> log[i].issued && log[i].outcome == Ok && Required(mode, log[i].phase))
    && (forall i, j :: 0 <= i < j < |log| ==> Rank(log[i].phase) < Rank(log[j].phase))
  }

  // Where a required phase stands: outside a gateway the two policy checks are left out.
  function Place(mode: Mode, rank: nat): int {
    if mode == ControlledGateway then rank else if rank < 7 then rank else if rank < 19 then rank - 1 else rank - 2
  }

  predicate Placed(mode: Mode, phases: seq<Phase>, from: int) {
    forall i :: 0 <= i < |phases| ==> Required(mode, phases[i]) && Place(mode, Rank(phases[i])) == from + i
  }

  lemma PlacedConcat(mode: Mode, a: seq<Phase>, b: seq<Phase>, from: int)
    requires Placed(mode, a, from) && Placed(mode, b, from + |a|)
    ensures Placed(mode, a + b, from)
  {
  }

  lemma {:induction false} OfflinePhasesInPlace(mode: Mode)
    ensures Placed(mode, WhileOffline(mode), 3)
    ensures |WhileOffline(mode)| == if mode == ControlledGateway then 17 else 15
  {
    var cold := [DISCONNECT, Snapshot(Offline), Control(ColdStart), Snapshot(PostColdStart)];
    var first, second := PolicyPhase(mode, PostColdStart), PolicyPhase(mode, PostBusiness);
    PlacedConcat(mode, cold, first, 3);
    PlacedConcat(mode, cold + first, BUSINESS, 3);
    PlacedConcat(mode, cold + first + BUSINESS, [Snapshot(PostBusiness)], 3);
    PlacedConcat(mode, cold + first + BUSINESS + [Snapshot(PostBusiness)], second, 3);
  }

  lemma {:induction false} PhasesInPlace(mode: Mode)
    ensures Placed(mode, Mandatory(mode), 0)
    ensures |Mandatory(mode)| == if mode == ControlledGateway then 24 else 22
  {
    OfflinePhasesInPlace(mode);
    var main := PREPARE + WhileOffline(mode);
    PlacedConcat(mode, PREPARE, WhileOffline(mode), 0);
    PlacedConcat(mode, main, [RESTORE], 0);
    PlacedConcat(mode, main + [RESTORE], [CANCEL, VERIFY], 0);
    PlacedConcat(mode, main + [RESTORE] + [CANCEL, VERIFY], [Snapshot(Restored)], 0);
  }

  lemma RankIsInjective(mode: Mode, a: Phase, b: Phase)
    requires Required(mode, a) && Required(mode, b) && Rank(a) == Rank(b)
    ensures a == b
  {
  }

  lemma {:induction false} MandatoryIsComplete(mode: Mode)
    ensures Complete(Successes(Mandatory(mode)), mode)
  {
    PhasesInPlace(mode);
    var m := Mandatory(mode);
    var log := Successes(m);
    forall phase | Required(mode, phase) ensures Attempt(phase, true, Ok) in log {
      var i := Place(mode, Rank(phase));
      RankIsInjective(mode, m[i], phase);
      assert log[i] == Attempt(phase, true, Ok);
    }
    forall i, j | 0 <= i < j < |log| ensures Rank(log[i].phase) < Rank(log[j].phase) {
      assert Place(mode, Rank(m[i])) == i && Place(mode, Rank(m[j])) == j;
    }
  }

  /** Only one log of either mode is complete. */
  lemma {:induction false} CompleteIsMandatory(log: seq<Attempt>, mode: Mode)
    requires Complete(log, mode)
    ensures log == Successes(Mandatory(mode))
  {
    MandatoryIsComplete(mode);
    SameOrder(log, Successes(Mandatory(mode)), mode);
  }

  lemma {:induction false} SameOrder(a: seq<Attempt>, b: seq<Attempt>, mode: Mode)
    requires Complete(a, mode) && Complete(b, mode)
    ensures a == b
  {
    var i := 0;
    while i < |a| && i < |b|
      invariant 0 <= i <= |a| && i <= |b| && a[..i] == b[..i]
    {
      NextAgrees(a, b, mode, i);
      i := i + 1;
    }
    if i < |a| {
      MissingFrom(a, b, mode, i);
    }
    if i < |b| {
      MissingFrom(b, a, mode, i);
    }
  }

  // An attempt of a complete log is in every other complete log, and not among its first ones.
  lemma {:induction false} MissingFrom(a: seq<Attempt>, b: seq<Attempt>, mode: Mode, i: nat)
    requires Complete(a, mode) && Complete(b, mode) && i < |a| && i <= |b| && a[..i] == b[..i]
    ensures i < |b| && Rank(b[i].phase) <= Rank(a[i].phase)
  {
    assert Attempt(a[i].phase, true, Ok) in b;
    forall k | 0 <= k < i ensures b[k].phase != a[i].phase {
      assert b[k] == b[..i][k] == a[..i][k] == a[k];
      assert Rank(a[k].phase) < Rank(a[i].phase);
    }
  }

  lemma {:induction false} NextAgrees(a: seq<Attempt>, b: seq<Attempt>, mode: Mode, i: nat)
    requires Complete(a, mode) && Complete(b, mode) && i < |a| && i < |b| && a[..i] == b[..i]
    ensures a[i] == b[i]
  {
    MissingFrom(a, b, mode, i);
    MissingFrom(b, a, mode, i);
    RankIsInjective(mode, a[i].phase, b[i].phase);
  }

  /**
    execute_collection, whatever each step does. Evidence is written exactly when every required
    phase succeeded, each in its place. Disconnection is only attempted once the recovery
    preflight, the first snapshot and the rollback arming have succeeded. Once it has been
    attempted, restoration is attempted after it before control leaves, and its command is issued
    exactly when the plan's restore command is well formed. The rollback is only ever cancelled
    after a successful restore, a verification is attempted at most once and directly after a
    successful cancellation, no artifact is recorded twice, and control leaves either recovered or
    with a recovery step that failed.
   */
  method ExecuteCollection(mode: Mode, world: World) returns (log: seq<Attempt>, evidence: bool)
    ensures evidence <==> Complete(log, mode)
    ensures Sound(log, world) && RecoveryKept(log) && ArmedBeforeDisconnect(log)
    ensures !Absent(log, DISCONNECT) <==>
            && world.wellFormed(RecoveryPreflight) && world.wellFormed(RollbackArm)
            && world.ends(0) == world.ends(1) == world.ends(2) == Ok
    ensures forall d :: 0 <= d < |log| && log[d].phase == DISCONNECT ==>
                          (RestoreIssuedAfter(log, d) <==> world.wellFormed(NetworkRestore))
  {
    QuietPhases(mode);
    log, evidence := Collect(PREPARE, WhileOffline(mode), world);
    PreparedMeansArmed(log);
    MandatoryIsComplete(mode);
    if Complete(log, mode) {
      CompleteIsMandatory(log, mode);
    }
    CanPrepareIff(world);
  }

  lemma {:induction false} CanPrepareIff(world: World)
    ensures CanSucceed(world, [], PREPARE) <==>
            && world.wellFormed(RecoveryPreflight) && world.wellFormed(RollbackArm)
            && world.ends(0) == world.ends(1) == world.ends(2) == Ok
  {
    assert PREPARE[0] == Control(RecoveryPreflight) && PREPARE[1] == Snapshot(Before);
    assert PREPARE[2] == Control(RollbackArm);
  }

  /** A plan without a well-formed restore command disconnects and never issues a restore. */
  method MalformedRestore(mode: Mode) returns (log: seq<Attempt>)
    ensures !Absent(log, DISCONNECT)
    ensures forall i :: 0 <= i < |log| && log[i].phase == DISCONNECT ==> log[i].issued
    ensures forall i :: 0 <= i < |log| && log[i].phase == RESTORE ==> !log[i].issued
  {
    var evidence;
    log, evidence := ExecuteCollection(mode, World(c => c != NetworkRestore, _ => Ok));
  }
}
