/**
  The identity-bound gate loop and its verdict (scripts/acceptance.py).

  What the outside answers (identity comparisons, gate commands, child evidence) is a `World`:
  each question is asked at most once, so an answer per stage or gate covers every behaviour.
 */
module GateRun {
  import opened Common
  import opened Sequences

  datatype Severity = P0 | P1 | P2

  datatype Status = Passed | Failed | Blocked

  // `child` is a gate with a child evidence path or kind.
  datatype Gate = Gate(id: string, severity: Severity, child: bool)

  datatype GateResult = GateResult(id: string, severity: Severity, status: Status)

  datatype Stage = Before(i: nat) | After(i: nat) | AfterChild(i: nat) | Final

  datatype World = World(identity: Stage -> bool, run: nat -> Status, child: nat -> bool)

  datatype Event = Checked(stage: Stage) | Ran(i: nat) | ReadChild(i: nat)

  // ---- the verdict ----

  function Ids(gates: seq<Gate>): (r: seq<string>)
    ensures |r| == |gates| && forall i :: 0 <= i < |r| ==> r[i] == gates[i].id
  {
    seq(|gates|, i requires 0 <= i < |gates| => gates[i].id)
  }

  function Observed(results: seq<GateResult>): (r: seq<string>)
    ensures |r| == |results| && forall i :: 0 <= i < |r| ==> r[i] == results[i].id
  {
    seq(|results|, i requires 0 <= i < |results| => results[i].id)
  }

  predicate GateSetVerified(results: seq<GateResult>, required: seq<string>) {
    required != [] && |required| == |Elements(required)| && Observed(results) == required
  }

  predicate AllPassed(results: seq<GateResult>, severity: Severity) {
    forall i :: 0 <= i < |results| && results[i].severity == severity ==> results[i].status == Passed
  }

  function CalculateVerdict(results: seq<GateResult>, required: seq<string>): AcceptanceVerdict {
    if !GateSetVerified(results, required) then FAIL
    else if !AllPassed(results, P0) then FAIL
    else if !AllPassed(results, P1) then CONDITIONAL
    else PASS
  }

  // ---- the run ----

  const IDENTITY_FAILURE := GateResult("ACCEPTANCE-IDENTITY-P0-001", P0, Failed)

  // How the run from gate i on ends.
  datatype End = Done | IdentityLost(k: nat, stage: Stage) | ChildRejected(k: nat)

  predicate HasChild(gates: seq<Gate>, w: World, i: nat)
    requires i < |gates|
  {
    gates[i].child && w.run(i) == Passed
  }

  function EndFrom(gates: seq<Gate>, w: World, i: nat): (e: End)
    requires i <= |gates|
    ensures e.IdentityLost? ==> i <= e.k <= |gates| && !w.identity(e.stage)
    ensures e.ChildRejected? ==> i <= e.k < |gates| && HasChild(gates, w, e.k) && !w.child(e.k)
    decreases |gates| - i
  {
    if i == |gates| then (if w.identity(Final) then Done else IdentityLost(i, Final))
    else if !w.identity(Before(i)) then IdentityLost(i, Before(i))
    else if !w.identity(After(i)) then IdentityLost(i, After(i))
    else if HasChild(gates, w, i) && !w.child(i) then ChildRejected(i)
    else if HasChild(gates, w, i) && !w.identity(AfterChild(i)) then IdentityLost(i, AfterChild(i))
    else EndFrom(gates, w, i + 1)
  }

  // What gate i would report, and what is done for it.
  function Reported(gates: seq<Gate>, w: World, i: nat, n: nat): (r: seq<GateResult>)
    requires i <= n <= |gates|
    ensures |r| == n - i && forall j :: 0 <= j < n - i ==>
            r[j] == GateResult(gates[i + j].id, gates[i + j].severity, w.run(i + j))
  {
    seq(n - i, j requires 0 <= j < n - i => GateResult(gates[i + j].id, gates[i + j].severity, w.run(i + j)))
  }

  function GateLog(gates: seq<Gate>, w: World, i: nat): seq<Event>
    requires i < |gates|
  {
    [Checked(Before(i)), Ran(i), Checked(After(i))]
    + if HasChild(gates, w, i) then [ReadChild(i), Checked(AfterChild(i))] else []
  }

  // Everything done for gates i up to n.
  function LogBetween(gates: seq<Gate>, w: World, i: nat, n: nat): seq<Event>
    requires i <= n <= |gates|
    decreases n
  {
    if i == n then [] else LogBetween(gates, w, i, n - 1) + GateLog(gates, w, n - 1)
  }

  function FullLog(gates: seq<Gate>, w: World): seq<Event> {
    LogBetween(gates, w, 0, |gates|) + [Checked(Final)]
  }

  // The part of the last gate's log that is reached, and what the ending adds to the results.
  function LastLog(e: End): seq<Event> {
    match e
    case Done => [Checked(Final)]
    case ChildRejected(k) => [Checked(Before(k)), Ran(k), Checked(After(k)), ReadChild(k)]
    case IdentityLost(k, Before(i)) => [Checked(Before(k))]
    case IdentityLost(k, After(i)) => [Checked(Before(k)), Ran(k), Checked(After(k))]
    case IdentityLost(k, AfterChild(i)) =>
      [Checked(Before(k)), Ran(k), Checked(After(k)), ReadChild(k), Checked(AfterChild(k))]
    case IdentityLost(k, Final) => [Checked(Final)]
  }

  function LastResults(gates: seq<Gate>, e: End): seq<GateResult> {
    match e
    case Done => []
    case IdentityLost(_, _) => [IDENTITY_FAILURE]
    case ChildRejected(k) => if k < |gates| then [GateResult(gates[k].id, gates[k].severity, Failed)] else []
  }

  function Completed(gates: seq<Gate>, e: End): nat {
    match e
    case Done => |gates|
    case IdentityLost(k, _) => k
    case ChildRejected(k) => k
  }

  function Results(gates: seq<Gate>, w: World): seq<GateResult> {
    var e := EndFrom(gates, w, 0);
    Reported(gates, w, 0, Completed(gates, e)) + LastResults(gates, e)
  }

  function Log(gates: seq<Gate>, w: World): seq<Event> {
    var e := EndFrom(gates, w, 0);
    LogBetween(gates, w, 0, Completed(gates, e)) + LastLog(e)
  }

  /** The loop of the source, with a log of what it does. */
  method RunGates(gates: seq<Gate>, w: World) returns (results: seq<GateResult>, log: seq<Event>)
    ensures results == Results(gates, w) && log == Log(gates, w)
  {
    results, log := [], [];
    var i := 0;
    while i < |gates|
      invariant i <= |gates| && EndFrom(gates, w, 0) == EndFrom(gates, w, i)
      invariant results == Reported(gates, w, 0, i) && log == LogBetween(gates, w, 0, i)
    {
      var gate := gates[i];
      var ok := w.identity(Before(i));
      if !ok {
        return results + [IDENTITY_FAILURE], log + [Checked(Before(i))];
      }
      var status := w.run(i);
      ok := w.identity(After(i));
      if !ok {
        return results + [IDENTITY_FAILURE], log + [Checked(Before(i)), Ran(i), Checked(After(i))];
      }
      if status == Passed && gate.child {
        if !w.child(i) {
          return results + [GateResult(gate.id, gate.severity, Failed)],
                 log + [Checked(Before(i)), Ran(i), Checked(After(i)), ReadChild(i)];
        }
        ok := w.identity(AfterChild(i));
        if !ok {
          return results + [IDENTITY_FAILURE],
                 log + [Checked(Before(i)), Ran(i), Checked(After(i)), ReadChild(i), Checked(AfterChild(i))];
        }
      }
      results := results + [GateResult(gate.id, gate.severity, status)];
      log := log + GateLog(gates, w, i);
      i := i + 1;
    }
    if !w.identity(Final) {
      results := results + [IDENTITY_FAILURE];
    }
    log := log + [Checked(Final)];
  }

  // ---- what a verdict means ----

  predicate AllChecksHold(log: seq<Event>, w: World) {
    forall j :: 0 <= j < |log| && log[j].Checked? ==> w.identity(log[j].stage)
  }

  predicate AllChildrenAccepted(log: seq<Event>, w: World) {
    forall j :: 0 <= j < |log| && log[j].ReadChild? ==> w.child(log[j].i)
  }

  function Runs(log: seq<Event>): seq<nat> {
    if log == [] then []
    else Runs(log[..|log| - 1]) + match log[|log| - 1] case Ran(i) => [i] case _ => []
  }

  function Upto(n: nat): (r: seq<nat>)
    ensures |r| == n && forall i :: 0 <= i < n ==> r[i] == i
  {
    seq(n, i => i)
  }

  lemma {:induction false} RunsAppend(a: seq<Event>, b: seq<Event>)
    ensures Runs(a + b) == Runs(a) + Runs(b)
    decreases |b|
  {
    if b == [] {
      assert a + b == a;
    } else {
      assert (a + b)[..|a + b| - 1] == a + b[..|b| - 1];
      RunsAppend(a, b[..|b| - 1]);
    }
  }

  lemma {:induction false} RunsOfGate(gates: seq<Gate>, w: World, i: nat)
    requires i < |gates|
    ensures Runs(GateLog(gates, w, i)) == [i]
  {
    var head := [Checked(Before(i)), Ran(i), Checked(After(i))];
    RunsOfHead(i);
    if HasChild(gates, w, i) {
      var tail := [ReadChild(i), Checked(AfterChild(i))];
      assert tail[..1] == [ReadChild(i)];
      assert Runs([ReadChild(i)]) == [];
      RunsAppend(head, tail);
    } else {
      assert GateLog(gates, w, i) == head;
    }
  }

  lemma {:induction false} RunsOfHead(i: nat)
    ensures Runs([Checked(Before(i)), Ran(i), Checked(After(i))]) == [i]
  {
    var head := [Checked(Before(i)), Ran(i), Checked(After(i))];
    assert head[..2] == [Checked(Before(i)), Ran(i)];
    assert head[..2][..1] == [Checked(Before(i))];
    assert Runs([Checked(Before(i))]) == [];
  }

  /** The full log runs every gate exactly once, in order. */
  lemma {:induction false} RunsInOrder(gates: seq<Gate>, w: World, n: nat)
    requires n <= |gates|
    ensures Runs(LogBetween(gates, w, 0, n)) == Upto(n)
  {
    if n > 0 {
      RunsInOrder(gates, w, n - 1);
      RunsOfGate(gates, w, n - 1);
      RunsAppend(LogBetween(gates, w, 0, n - 1), GateLog(gates, w, n - 1));
    }
  }

  // The gates before the end were checked, and their children accepted.
  lemma {:induction false} CompletedIsChecked(gates: seq<Gate>, w: World, i: nat, n: nat)
    requires i <= n <= |gates| && EndFrom(gates, w, 0) == EndFrom(gates, w, i)
    requires n <= Completed(gates, EndFrom(gates, w, 0))
    requires AllChecksHold(LogBetween(gates, w, 0, i), w) && AllChildrenAccepted(LogBetween(gates, w, 0, i), w)
    ensures AllChecksHold(LogBetween(gates, w, 0, n), w) && AllChildrenAccepted(LogBetween(gates, w, 0, n), w)
    ensures EndFrom(gates, w, 0) == EndFrom(gates, w, n)
    decreases n - i
  {
    if i < n {
      assert EndFrom(gates, w, i) == EndFrom(gates, w, i + 1);
      CompletedIsChecked(gates, w, i + 1, n);
    }
  }

  /** However the run ends, what it did is a prefix of the full log and every comparison but the last held. */
  lemma {:induction false} LogIsCheckedPrefix(gates: seq<Gate>, w: World)
    ensures Log(gates, w) <= FullLog(gates, w)
    ensures Log(gates, w) != [] && AllChecksHold(Log(gates, w)[..|Log(gates, w)| - 1], w)
    ensures EndFrom(gates, w, 0).IdentityLost? <==>
              Log(gates, w)[|Log(gates, w)| - 1].Checked? && !w.identity(Log(gates, w)[|Log(gates, w)| - 1].stage)
  {
    var e := EndFrom(gates, w, 0);
    var n := Completed(gates, e);
    CompletedIsChecked(gates, w, 0, n);
    LastLogIsPrefix(gates, w, n);
    LogExtends(gates, w, n, |gates|);
    ChecksConcat(LogBetween(gates, w, 0, n), LastLog(e), w);
  }

  lemma {:induction false} ChecksConcat(done: seq<Event>, last: seq<Event>, w: World)
    requires last != [] && AllChecksHold(done, w) && AllChecksHold(last[..|last| - 1], w)
    ensures AllChecksHold((done + last)[..|done + last| - 1], w)
    ensures (done + last)[|done + last| - 1] == last[|last| - 1]
  {
    assert (done + last)[..|done + last| - 1] == done + last[..|last| - 1];
  }

  lemma {:induction false} LastLogIsPrefix(gates: seq<Gate>, w: World, n: nat)
    requires n <= |gates| && n == Completed(gates, EndFrom(gates, w, n))
    ensures var last := LastLog(EndFrom(gates, w, n));
            && last != [] && AllChecksHold(last[..|last| - 1], w)
            && (if n == |gates| then last == [Checked(Final)] else last <= GateLog(gates, w, n))
            && (EndFrom(gates, w, n).IdentityLost?
               <==> last[|last| - 1].Checked? && !w.identity(last[|last| - 1].stage))
  {
    if n < |gates| && EndFrom(gates, w, n) == EndFrom(gates, w, n + 1) {
      assert false;
    }
  }

  lemma {:induction false} LogExtends(gates: seq<Gate>, w: World, i: nat, n: nat)
    requires i <= n <= |gates|
    ensures LogBetween(gates, w, 0, i) <= LogBetween(gates, w, 0, n)
    ensures i < n ==> LogBetween(gates, w, 0, i) + GateLog(gates, w, i) <= LogBetween(gates, w, 0, n)
    decreases n - i
  {
    if i < n {
      LogExtends(gates, w, i, n - 1);
    }
  }

  predicate IdsOk(gates: seq<Gate>) { gates != [] && NoDuplicates(Ids(gates)) }

  function VerdictOf(gates: seq<Gate>, w: World): AcceptanceVerdict { CalculateVerdict(Results(gates, w), Ids(gates)) }

  // A run is clean when every comparison of the full log holds and every child is accepted.
  predicate Clean(gates: seq<Gate>, w: World) {
    AllChecksHold(FullLog(gates, w), w) && AllChildrenAccepted(FullLog(gates, w), w)
  }

  lemma {:induction false} DoneIffClean(gates: seq<Gate>, w: World)
    ensures EndFrom(gates, w, 0) == Done <==> Clean(gates, w)
    ensures EndFrom(gates, w, 0) == Done ==> Log(gates, w) == FullLog(gates, w)
  {
    var e, log, full := EndFrom(gates, w, 0), Log(gates, w), FullLog(gates, w);
    CompletedIsChecked(gates, w, 0, Completed(gates, e));
    LogIsCheckedPrefix(gates, w);
    assert log[|log| - 1] == full[|log| - 1];
    match e
    case Done =>
    case IdentityLost(_, _) =>
    case ChildRejected(k) =>
      assert log[|log| - 1] == ReadChild(k);
  }

  /** The first failed comparison forces FAIL and nothing is done after it. */
  lemma {:induction false} LostIdentityFails(gates: seq<Gate>, w: World)
    requires EndFrom(gates, w, 0).IdentityLost?
    ensures VerdictOf(gates, w) == FAIL
    ensures !AllChecksHold(Log(gates, w), w) && AllChecksHold(Log(gates, w)[..|Log(gates, w)| - 1], w)
    ensures Results(gates, w)[|Results(gates, w)| - 1] == GateResult("ACCEPTANCE-IDENTITY-P0-001", P0, Failed)
  {
    LogIsCheckedPrefix(gates, w);
    var results := Results(gates, w);
    assert results[|results| - 1] == IDENTITY_FAILURE;
    assert !AllPassed(results, P0);
  }

  /** A rejected child fails a P0 gate's run, and any run that it cuts short. */
  lemma {:induction false} RejectedChildVerdict(gates: seq<Gate>, w: World)
    requires EndFrom(gates, w, 0).ChildRejected?
    ensures VerdictOf(gates, w) == PASS ==>
              var k := EndFrom(gates, w, 0).k;
              k == |gates| - 1 && gates[k].severity == P2 && gates[k].child
    ensures Checked(Final) !in Log(gates, w)
  {
    var e, results := EndFrom(gates, w, 0), Results(gates, w);
    assert |results| == e.k + 1 && results[e.k] == GateResult(gates[e.k].id, gates[e.k].severity, Failed);
    assert |Observed(results)| == e.k + 1 && |Ids(gates)| == |gates|;
    NoFinalBefore(gates, w, e.k);
  }

  lemma {:induction false} NoFinalBefore(gates: seq<Gate>, w: World, n: nat)
    requires n <= |gates|
    ensures Checked(Final) !in LogBetween(gates, w, 0, n)
  {
    if n > 0 {
      NoFinalBefore(gates, w, n - 1);
    }
  }

  lemma {:induction false} DoneVerdict(gates: seq<Gate>, w: World)
    requires EndFrom(gates, w, 0) == Done
    ensures Results(gates, w) == Reported(gates, w, 0, |gates|)
    ensures VerdictOf(gates, w) == PASS <==>
              IdsOk(gates) && AllPassed(Results(gates, w), P0) && AllPassed(Results(gates, w), P1)
  {
    ElementsSize(Ids(gates));
    assert Observed(Results(gates, w)) == Ids(gates);
  }

  /**
    With no P2 gate that has child evidence, PASS holds exactly for distinct gate ids, a clean run
    and passing P0 and P1 gates; then every gate ran exactly once, in order, between comparisons
    that all held.
   */
  lemma {:induction false} PassIff(gates: seq<Gate>, w: World)
    requires forall i :: 0 <= i < |gates| && gates[i].child ==> gates[i].severity != P2
    ensures VerdictOf(gates, w) == PASS <==>
              && IdsOk(gates) && Clean(gates, w)
              && AllPassed(Reported(gates, w, 0, |gates|), P0) && AllPassed(Reported(gates, w, 0, |gates|), P1)
    ensures VerdictOf(gates, w) == PASS ==>
              && Log(gates, w) == FullLog(gates, w)
              && AllChecksHold(Log(gates, w), w)
              && Runs(Log(gates, w)) == Upto(|gates|)
  {
    DoneIffClean(gates, w);
    match EndFrom(gates, w, 0)
    case Done =>
      DoneVerdict(gates, w);
      RunsInOrder(gates, w, |gates|);
      RunsAppend(LogBetween(gates, w, 0, |gates|), [Checked(Final)]);
    case IdentityLost(_, _) => LostIdentityFails(gates, w);
    case ChildRejected(_) => RejectedChildVerdict(gates, w);
  }

  // ---- the same, gate by gate ----

  predicate GateHeld(gates: seq<Gate>, w: World, i: nat)
    requires i < |gates|
  {
    && w.identity(Before(i)) && w.identity(After(i))
    && (gates[i].child && w.run(i) == Passed ==> w.child(i) && w.identity(AfterChild(i)))
  }

  lemma {:induction false} GateLogHolds(gates: seq<Gate>, w: World, i: nat)
    requires i < |gates|
    ensures AllChecksHold(GateLog(gates, w, i), w) && AllChildrenAccepted(GateLog(gates, w, i), w)
            <==> GateHeld(gates, w, i)
  {
    var log := GateLog(gates, w, i);
    assert log[0] == Checked(Before(i)) && log[1] == Ran(i) && log[2] == Checked(After(i));
    if HasChild(gates, w, i) {
      assert log[3] == ReadChild(i) && log[4] == Checked(AfterChild(i));
    }
  }

  lemma {:induction false} HoldConcat(a: seq<Event>, b: seq<Event>, w: World)
    ensures AllChecksHold(a + b, w) <==> AllChecksHold(a, w) && AllChecksHold(b, w)
    ensures AllChildrenAccepted(a + b, w) <==> AllChildrenAccepted(a, w) && AllChildrenAccepted(b, w)
  {
    assert forall j :: 0 <= j < |a| ==> (a + b)[j] == a[j];
    assert forall j :: 0 <= j < |b| ==> (a + b)[|a| + j] == b[j];
  }

  lemma {:induction false} LogHolds(gates: seq<Gate>, w: World, n: nat)
    requires n <= |gates|
    ensures AllChecksHold(LogBetween(gates, w, 0, n), w) && AllChildrenAccepted(LogBetween(gates, w, 0, n), w)
            <==> forall i :: 0 <= i < n ==> GateHeld(gates, w, i)
  {
    if n > 0 {
      LogHolds(gates, w, n - 1);
      GateLogHolds(gates, w, n - 1);
      HoldConcat(LogBetween(gates, w, 0, n - 1), GateLog(gates, w, n - 1), w);
    }
  }

  /** A run is clean when the identity held before, after and at the end of every gate, and at the end of the run. */
  lemma {:induction false} CleanIff(gates: seq<Gate>, w: World)
    ensures Clean(gates, w) <==> w.identity(Final) && forall i :: 0 <= i < |gates| ==> GateHeld(gates, w, i)
  {
    LogHolds(gates, w, |gates|);
    HoldConcat(LogBetween(gates, w, 0, |gates|), [Checked(Final)], w);
    assert [Checked(Final)][0] == Checked(Final);
  }

  // Each gate runs directly between its two comparisons, and one follows each child evidence.
  predicate Bracketed(log: seq<Event>) { forall j :: 0 <= j < |log| ==> BracketedAt(log, j) }

  predicate BracketedAt(log: seq<Event>, j: nat)
    requires j < |log|
  {
    && (log[j].Ran? ==>
          0 < j < |log| - 1 && log[j - 1] == Checked(Before(log[j].i)) && log[j + 1] == Checked(After(log[j].i)))
    && (log[j].ReadChild? ==> j < |log| - 1 && log[j + 1] == Checked(AfterChild(log[j].i)))
  }

  lemma {:induction false} BracketedConcat(a: seq<Event>, b: seq<Event>)
    requires Bracketed(a) && Bracketed(b)
    ensures Bracketed(a + b)
  {
    forall j | 0 <= j < |a + b| ensures BracketedAt(a + b, j) {
      if j < |a| {
        assert BracketedAt(a, j);
      } else {
        assert BracketedAt(b, j - |a|);
      }
    }
  }

  /** In the full log every gate runs between its comparisons. */
  lemma {:induction false} GatesAreBracketed(gates: seq<Gate>, w: World, n: nat)
    requires n <= |gates|
    ensures Bracketed(LogBetween(gates, w, 0, n))
    ensures n == |gates| ==> Bracketed(FullLog(gates, w))
  {
    if n > 0 {
      GatesAreBracketed(gates, w, n - 1);
      BracketedConcat(LogBetween(gates, w, 0, n - 1), GateLog(gates, w, n - 1));
    }
    BracketedConcat(LogBetween(gates, w, 0, n), [Checked(Final)]);
  }

  // The results are of the required gates, in order, and no gate is required twice.
  predicate Matches(results: seq<GateResult>, required: seq<string>) {
    && required != [] && (forall i, j :: 0 <= i < j < |required| ==> required[i] != required[j])
    && |results| == |required| && forall i :: 0 <= i < |results| ==> results[i].id == required[i]
  }

  predicate SomeNotPassed(results: seq<GateResult>, severity: Severity) {
    exists i :: 0 <= i < |results| && results[i].severity == severity && results[i].status in {Failed, Blocked}
  }

  /** FAIL for other gates than required or a P0 gate that did not pass; CONDITIONAL for a P1 gate; PASS otherwise. */
  lemma {:induction false} VerdictMeans(results: seq<GateResult>, required: seq<string>)
    ensures CalculateVerdict(results, required) == FAIL <==>
              !Matches(results, required) || SomeNotPassed(results, P0)
    ensures CalculateVerdict(results, required) == CONDITIONAL <==>
              Matches(results, required) && !SomeNotPassed(results, P0) && SomeNotPassed(results, P1)
    ensures CalculateVerdict(results, required) == PASS <==>
              Matches(results, required) && !SomeNotPassed(results, P0) && !SomeNotPassed(results, P1)
  {
    ElementsSize(required);
    assert NoDuplicates(required) <==> forall i, j :: 0 <= i < j < |required| ==> required[i] != required[j];
    assert forall i :: 0 <= i < |results| ==> Observed(results)[i] == results[i].id;
    assert Observed(results) == required <==>
           |results| == |required| && forall i :: 0 <= i < |results| ==> results[i].id == required[i];
  }

  predicate GateNotPassed(gates: seq<Gate>, w: World, severity: Severity) {
    exists i :: 0 <= i < |gates| && gates[i].severity == severity && w.run(i) != Passed
  }

  lemma {:induction false} ReportedNotPassed(gates: seq<Gate>, w: World, severity: Severity)
    ensures SomeNotPassed(Reported(gates, w, 0, |gates|), severity) <==> GateNotPassed(gates, w, severity)
  {
    var results := Reported(gates, w, 0, |gates|);
    forall i | 0 <= i < |gates|
      ensures results[i].severity == gates[i].severity && results[i].status == w.run(i)
    {
      assert results[i] == GateResult(gates[i].id, gates[i].severity, w.run(i));
    }
  }

  /** The verdict of a clean run of distinct gates follows from what the gates themselves reported. */
  lemma {:induction false} CleanVerdict(gates: seq<Gate>, w: World)
    requires IdsOk(gates) && Clean(gates, w)
    ensures VerdictOf(gates, w) == if GateNotPassed(gates, w, P0) then FAIL
                                   else if GateNotPassed(gates, w, P1) then CONDITIONAL else PASS
  {
    DoneIffClean(gates, w);
    DoneVerdict(gates, w);
    var results, ids := Results(gates, w), Ids(gates);
    VerdictMeans(results, ids);
    ReportedNotPassed(gates, w, P0);
    ReportedNotPassed(gates, w, P1);
    assert Matches(results, ids);
  }

  /**
    Rejected child evidence fails the run if gates are left or its gate is P0, and makes it
    CONDITIONAL for a last P1 gate.
   */
  lemma {:induction false} RejectedChildExactly(gates: seq<Gate>, w: World)
    requires EndFrom(gates, w, 0).ChildRejected?
    ensures var k := EndFrom(gates, w, 0).k;
            && (k < |gates| - 1 || gates[k].severity == P0 ==> VerdictOf(gates, w) == FAIL)
            && (k == |gates| - 1 && gates[k].severity == P1 && IdsOk(gates) && !GateNotPassed(gates, w, P0) ==>
                  VerdictOf(gates, w) == CONDITIONAL)
  {
    var k, results, ids := EndFrom(gates, w, 0).k, Results(gates, w), Ids(gates);
    VerdictMeans(results, ids);
    assert |results| == k + 1 && results[k] == GateResult(gates[k].id, gates[k].severity, Failed);
    assert forall i :: 0 <= i < k ==> results[i] == GateResult(gates[i].id, gates[i].severity, w.run(i));
  }

  // Everything passes except the child evidence of gate k.
  function OneBadChild(k: int): World { World(_ => true, _ => Passed, i => i != k) }

  lemma {:induction false} OneBadChildEnd(gates: seq<Gate>, i: nat)
    requires i < |gates| && gates[|gates| - 1].child
    ensures EndFrom(gates, OneBadChild(|gates| - 1), i) == ChildRejected(|gates| - 1)
    decreases |gates| - i
  {
    if i < |gates| - 1 {
      OneBadChildEnd(gates, i + 1);
    }
  }

  predicate EndsInOptionalChild(gates: seq<Gate>) {
    gates != [] && gates[|gates| - 1].child && gates[|gates| - 1].severity == P2
  }

  ghost predicate PassesUnchecked(gates: seq<Gate>, w: World) {
    VerdictOf(gates, w) == PASS && Checked(Final) !in Log(gates, w)
  }

  /**
    A gate list can pass without the final comparison exactly when its ids are distinct and its
    last gate is a P2 gate with child evidence.
   */
  lemma {:induction false} SkippedFinalCheckIff(gates: seq<Gate>)
    ensures (exists w :: PassesUnchecked(gates, w)) <==> IdsOk(gates) && EndsInOptionalChild(gates)
  {
    if IdsOk(gates) && EndsInOptionalChild(gates) {
      OptionalChildPasses(gates);
    }
    forall w | PassesUnchecked(gates, w) ensures IdsOk(gates) && EndsInOptionalChild(gates) {
      ElementsSize(Ids(gates));
      DoneIffClean(gates, w);
      assert FullLog(gates, w)[|FullLog(gates, w)| - 1] == Checked(Final);
      match EndFrom(gates, w, 0)
      case Done =>
      case IdentityLost(_, _) => LostIdentityFails(gates, w);
      case ChildRejected(_) => RejectedChildVerdict(gates, w);
    }
  }

  lemma {:induction false} OptionalChildPasses(gates: seq<Gate>)
    requires IdsOk(gates) && EndsInOptionalChild(gates)
    ensures PassesUnchecked(gates, OneBadChild(|gates| - 1))
  {
    var n, w := |gates|, OneBadChild(|gates| - 1);
    OneBadChildEnd(gates, 0);
    RejectedChildVerdict(gates, w);
    ElementsSize(Ids(gates));
    assert Observed(Results(gates, w)) == Ids(gates);
  }
}
