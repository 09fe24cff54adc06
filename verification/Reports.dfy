/**
  Publication of the acceptance reports (scripts/acceptance.py): acceptance.json and
  acceptance.md, with a process crash or a failing file operation at any point.

  A publication is identified by a number; a report document and a markdown file match when they
  come from the same publication. An atomic write either happens or does not, but may raise
  after it has happened.
 */
module Reports {
  import opened Common

  datatype Document = Document(publication: nat, complete: bool, verdict: AcceptanceVerdict)

  // Where a publisher is. `round` counts the invalidations it has begun after a failure.
  datatype Phase =
    | UnlinkJson | UnlinkMarkdown
    | WritePreparing | WriteMarkdown | WriteComplete
    | CleanJson(round: nat) | CleanMarkdown(round: nat)

  datatype Publisher = Publisher(publication: nat, verdict: AcceptanceVerdict, phase: Phase)

  type Pid = nat

  datatype State = State(json: Option<Document>, markdown: Option<nat>, publishers: map<Pid, Publisher>)

  // How a file operation ends: done, raised without effect, or raised after taking effect.
  datatype Ending = Done | Raised | RaisedAfter

  datatype Step =
    | Start(p: Pid, publication: nat, verdict: AcceptanceVerdict)
    | Do(p: Pid, ending: Ending)
    | Crash(p: Pid)

  predicate Enabled(s: State, step: Step) {
    match step
    case Start(p, _, _) => p !in s.publishers
    case Do(p, _) => p in s.publishers
    case Crash(p) => p in s.publishers
  }

  function Go(s: State, p: Pid, phase: Phase): State
    requires p in s.publishers
  {
    s.(publishers := s.publishers[p := s.publishers[p].(phase := phase)])
  }

  function Stop(s: State, p: Pid): State { s.(publishers := s.publishers - {p}) }

  // The file operation itself.
  function Effect(s: State, p: Pid): State
    requires p in s.publishers
  {
    var w := s.publishers[p];
    match w.phase
    case UnlinkJson => s.(json := None)
    case UnlinkMarkdown => s.(markdown := None)
    case WritePreparing => s.(json := Some(Document(w.publication, false, FAIL)))
    case WriteMarkdown => s.(markdown := Some(w.publication))
    case WriteComplete => s.(json := Some(Document(w.publication, true, w.verdict)))
    case CleanJson(_) => s.(json := None)
    case CleanMarkdown(_) => s.(markdown := None)
  }

  // write_reports invalidates once on failure and its caller once more.
  const LAST_ROUND := 1

  function AfterSuccess(s: State, p: Pid): State
    requires p in s.publishers
  {
    match s.publishers[p].phase
    case UnlinkJson => Go(s, p, UnlinkMarkdown)
    case UnlinkMarkdown => Go(s, p, WritePreparing)
    case WritePreparing => Go(s, p, WriteMarkdown)
    case WriteMarkdown => Go(s, p, WriteComplete)
    case WriteComplete => Stop(s, p)
    case CleanJson(round) => Go(s, p, CleanMarkdown(round))
    case CleanMarkdown(round) => if round < LAST_ROUND then Go(s, p, CleanJson(round + 1)) else Stop(s, p)
  }

  function AfterFailure(s: State, p: Pid): State
    requires p in s.publishers
  {
    match s.publishers[p].phase
    case CleanJson(round) => if round < LAST_ROUND then Go(s, p, CleanJson(round + 1)) else Stop(s, p)
    case CleanMarkdown(round) => if round < LAST_ROUND then Go(s, p, CleanJson(round + 1)) else Stop(s, p)
    case _ => Go(s, p, CleanJson(0))
  }

  function Next(s: State, step: Step): State
    requires Enabled(s, step)
  {
    match step
    case Start(p, publication, verdict) =>
      s.(publishers := s.publishers[p := Publisher(publication, verdict, UnlinkJson)])
    case Do(p, ending) =>
      (match ending
       case Done => AfterSuccess(Effect(s, p), p)
       case Raised => AfterFailure(s, p)
       case RaisedAfter => AfterFailure(Effect(s, p), p))
    case Crash(p) => Stop(s, p)
  }

  function Run(s: State, steps: seq<Step>): State
    decreases |steps|
  {
    if steps == [] then s else Run(if Enabled(s, steps[0]) then Next(s, steps[0]) else s, steps[1..])
  }

  // What a reader may rely on at any moment.
  predicate Consistent(s: State) {
    s.json.Some? ==>
      && (s.json.value.complete ==> s.markdown == Some(s.json.value.publication))
      && (!s.json.value.complete ==> s.json.value.verdict == FAIL)
  }

  predicate PhaseFits(s: State, w: Publisher) {
    match w.phase
    case UnlinkJson => true
    case UnlinkMarkdown => s.json.None?
    case WritePreparing => s.json.None?
    case WriteMarkdown => s.json == Some(Document(w.publication, false, FAIL))
    case WriteComplete => s.markdown == Some(w.publication) && s.json == Some(Document(w.publication, false, FAIL))
    case CleanJson(_) => true
    case CleanMarkdown(_) => s.json.None?
  }

  predicate Inv(s: State) {
    && Consistent(s)
    && (forall p, q :: p in s.publishers && q in s.publishers ==> p == q)
    && (forall p :: p in s.publishers ==> PhaseFits(s, s.publishers[p]))
  }

  // Publishers do not overlap.
  predicate OneAtATime(s: State, steps: seq<Step>)
    decreases |steps|
  {
    steps == [] ||
    (&& (steps[0].Start? ==> s.publishers == map[])
     && OneAtATime(if Enabled(s, steps[0]) then Next(s, steps[0]) else s, steps[1..]))
  }

  lemma {:induction false} StepKeepsInv(s: State, step: Step)
    requires Inv(s) && Enabled(s, step) && (step.Start? ==> s.publishers == map[])
    ensures Inv(Next(s, step))
  {
    if step.Do? {
      assert PhaseFits(s, s.publishers[step.p]);
    }
  }

  /**
    Publication is crash consistent: after any number of publications, each failing or crashing
    anywhere, a report marked complete has the markdown of the same publication beside it, and
    any other report says FAIL.
   */
  lemma {:induction false} PublicationIsConsistent(s: State, steps: seq<Step>)
    requires Inv(s) && OneAtATime(s, steps)
    ensures Inv(Run(s, steps)) && Consistent(Run(s, steps))
    decreases |steps|
  {
    if steps != [] {
      if Enabled(s, steps[0]) {
        StepKeepsInv(s, steps[0]);
        PublicationIsConsistent(Next(s, steps[0]), steps[1..]);
      } else {
        PublicationIsConsistent(s, steps[1..]);
      }
    }
  }

  function Undisturbed(p: Pid, publication: nat, verdict: AcceptanceVerdict): seq<Step> {
    [Start(p, publication, verdict), Do(p, Done), Do(p, Done), Do(p, Done), Do(p, Done), Do(p, Done)]
  }

  /** A publication that nothing disturbs replaces whatever was there by its own pair. */
  lemma {:induction false} UndisturbedPublishes(s: State, p: Pid, publication: nat, verdict: AcceptanceVerdict)
    requires p !in s.publishers
    ensures var end := Run(s, Undisturbed(p, publication, verdict));
            end.json == Some(Document(publication, true, verdict)) && end.markdown == Some(publication)
            && end.publishers == s.publishers
  {
    var steps := Undisturbed(p, publication, verdict);
    var s1 := Next(s, steps[0]);
    var s2 := Next(s1, steps[1]);
    var s3 := Next(s2, steps[2]);
    var s4 := Next(s3, steps[3]);
    var s5 := Next(s4, steps[4]);
    var s6 := Next(s5, steps[5]);
    assert steps[5..][1..] == [] && Run(s5, steps[5..]) == s6;
    assert steps[4..][1..] == steps[5..] && Run(s4, steps[4..]) == s6;
    assert steps[3..][1..] == steps[4..] && Run(s3, steps[3..]) == s6;
    assert steps[2..][1..] == steps[3..] && Run(s2, steps[2..]) == s6;
    assert steps[1..][1..] == steps[2..] && Run(s1, steps[1..]) == s6;
    assert s6.publishers == s.publishers;
  }

  // What a publisher does when a write fails: one invalidation, however far it gets, and another one.
  function FirstRound(p: Pid, first: Ending, second: Ending): seq<Step> {
    if first == Done then [Do(p, first), Do(p, second)] else [Do(p, first)]
  }

  function LastRound(p: Pid): seq<Step> { [Do(p, Done), Do(p, Done)] }

  /**
    A publication of which any operation fails leaves neither file and ends, if the caller's own
    invalidation succeeds.
   */
  lemma {:induction false} FailureLeavesNothing(s: State, p: Pid, ending: Ending, first: Ending, second: Ending)
    requires p in s.publishers && Publishing(s.publishers[p].phase) && ending != Done
    ensures var end := Run(s, [Do(p, ending)] + (FirstRound(p, first, second) + LastRound(p)));
            end.json.None? && end.markdown.None? && end.publishers == s.publishers - {p}
  {
    var failed := Next(s, Do(p, ending));
    RunCons(s, Do(p, ending), FirstRound(p, first, second) + LastRound(p));
    assert failed.publishers == s.publishers[p := s.publishers[p].(phase := CleanJson(0))];
    RunSplit(failed, FirstRound(p, first, second), LastRound(p));
    FirstRoundEnds(failed, p, first, second);
    LastRoundClears(Run(failed, FirstRound(p, first, second)), p);
  }

  lemma {:induction false} FirstRoundEnds(s: State, p: Pid, first: Ending, second: Ending)
    requires p in s.publishers && s.publishers[p].phase == CleanJson(0)
    ensures Run(s, FirstRound(p, first, second)).publishers
            == s.publishers[p := s.publishers[p].(phase := CleanJson(1))]
  {
    var next := Next(s, Do(p, first));
    if first == Done {
      assert FirstRound(p, first, second) == [Do(p, first)] + ([Do(p, second)] + []);
      RunCons(s, Do(p, first), [Do(p, second)] + []);
      RunCons(next, Do(p, second), []);
    } else {
      assert FirstRound(p, first, second) == [Do(p, first)] + [];
      RunCons(s, Do(p, first), []);
    }
  }

  lemma {:induction false} LastRoundClears(s: State, p: Pid)
    requires p in s.publishers && s.publishers[p].phase == CleanJson(1)
    ensures var end := Run(s, LastRound(p));
            end.json.None? && end.markdown.None? && end.publishers == s.publishers - {p}
  {
    var half := Next(s, Do(p, Done));
    assert LastRound(p) == [Do(p, Done)] + ([Do(p, Done)] + []);
    RunCons(s, Do(p, Done), [Do(p, Done)] + []);
    RunCons(half, Do(p, Done), []);
  }

  // ---- overlapping publishers ----

  lemma {:induction false} RunCons(s: State, step: Step, rest: seq<Step>)
    ensures Run(s, [step] + rest) == Run(if Enabled(s, step) then Next(s, step) else s, rest)
  {
    assert ([step] + rest)[1..] == rest;
  }

  lemma {:induction false} RunSplit(s: State, before: seq<Step>, after: seq<Step>)
    ensures Run(s, before + after) == Run(Run(s, before), after)
    decreases |before|
  {
    if before == [] {
      assert before + after == after;
    } else {
      assert (before + after)[1..] == before[1..] + after;
      RunSplit(if Enabled(s, before[0]) then Next(s, before[0]) else s, before[1..], after);
    }
  }

  // Nobody else starts to publish.
  predicate NoStart(steps: seq<Step>) { forall i :: 0 <= i < |steps| ==> !steps[i].Start? }

  lemma {:induction false} NoStartIsOneAtATime(s: State, steps: seq<Step>)
    requires NoStart(steps)
    ensures OneAtATime(s, steps)
    decreases |steps|
  {
    if steps != [] {
      NoStartIsOneAtATime(if Enabled(s, steps[0]) then Next(s, steps[0]) else s, steps[1..]);
    }
  }

  // The steps a publisher still has to take before its last write.
  function Remaining(phase: Phase): nat {
    match phase
    case UnlinkJson => 4
    case UnlinkMarkdown => 3
    case WritePreparing => 2
    case WriteMarkdown => 1
    case _ => 0
  }

  predicate Publishing(phase: Phase) { !phase.CleanJson? && !phase.CleanMarkdown? }

  // A publisher goes on, undisturbed, until only its last write is missing.
  lemma {:induction false} DriveToLastWrite(s: State, p: Pid) returns (steps: seq<Step>)
    requires p in s.publishers && Publishing(s.publishers[p].phase)
    ensures NoStart(steps) && (s.publishers[p].phase == WriteComplete ==> steps == [])
    ensures Run(s, steps).publishers == s.publishers[p := s.publishers[p].(phase := WriteComplete)]
    ensures s.publishers[p].phase != WriteComplete ==> Run(s, steps).markdown == Some(s.publishers[p].publication)
    decreases Remaining(s.publishers[p].phase)
  {
    if s.publishers[p].phase == WriteComplete {
      assert s.publishers[p := s.publishers[p].(phase := WriteComplete)] == s.publishers;
      return [];
    }
    var t := Next(s, Do(p, Done));
    var rest := DriveToLastWrite(t, p);
    RunCons(s, Do(p, Done), rest);
    return [Do(p, Done)] + rest;
  }

  // Two publishers, the older about to certify its report: the newer replaces the markdown first.
  lemma {:induction false} WrongMarkdown(s: State, p: Pid, q: Pid) returns (steps: seq<Step>)
    requires p != q && p in s.publishers && q in s.publishers
    requires Publishing(s.publishers[p].phase) && s.publishers[q].phase == UnlinkJson
    requires s.publishers[p].publication != s.publishers[q].publication
    ensures NoStart(steps) && !Consistent(Run(s, steps))
  {
    var first := DriveToLastWrite(s, p);
    var s1 := Run(s, first);
    var second := DriveToLastWrite(s1, q);
    var s2 := Run(s1, second);
    var last := [Do(p, Done)];
    assert s2.publishers[p].phase == WriteComplete && s2.markdown == Some(s.publishers[q].publication);
    RunCons(s2, Do(p, Done), []);
    assert [Do(p, Done)] + [] == last;
    RunSplit(s, first, second + last);
    RunSplit(s1, second, last);
    steps := first + (second + last);
  }

  // The older is cleaning up after a failure: it removes the markdown of the newer's complete report.
  lemma {:induction false} LostMarkdown(s: State, p: Pid, q: Pid) returns (steps: seq<Step>)
    requires p != q && p in s.publishers && q in s.publishers
    requires s.publishers[p].phase.CleanMarkdown? && s.publishers[q].phase == UnlinkJson
    ensures NoStart(steps) && !Consistent(Run(s, steps))
  {
    var first := DriveToLastWrite(s, q);
    var s1 := Run(s, first);
    var s2 := Next(s1, Do(q, Done));
    assert s2.json == Some(Document(s.publishers[q].publication, true, s.publishers[q].verdict));
    assert p in s2.publishers && s2.publishers[p].phase.CleanMarkdown?;
    var s3 := Next(s2, Do(p, Done));
    assert s3.json == s2.json && s3.markdown.None?;
    var last := [Do(q, Done)] + ([Do(p, Done)] + []);
    RunCons(s1, Do(q, Done), [Do(p, Done)] + []);
    RunCons(s2, Do(p, Done), []);
    RunSplit(s, first, last);
    steps := first + last;
  }

  lemma {:induction false} OverlapBreaks(s: State, p: Pid, q: Pid) returns (steps: seq<Step>)
    requires p != q && p in s.publishers && q in s.publishers && s.publishers[q].phase == UnlinkJson
    requires s.publishers[p].publication != s.publishers[q].publication
    ensures NoStart(steps) && !Consistent(Run(s, steps))
  {
    if Publishing(s.publishers[p].phase) {
      steps := WrongMarkdown(s, p, q);
    } else if s.publishers[p].phase.CleanMarkdown? {
      steps := LostMarkdown(s, p, q);
    } else {
      var t := Next(s, Do(p, Done));
      var rest := LostMarkdown(t, p, q);
      RunCons(s, Do(p, Done), rest);
      steps := [Do(p, Done)] + rest;
    }
  }

  predicate Fresh(s: State, publication: nat) {
    forall p :: p in s.publishers ==> s.publishers[p].publication != publication
  }

  // Whatever the publishers at work do, and whoever starts once they are gone.
  ghost predicate AlwaysConsistent(s: State) {
    forall steps :: OneAtATime(s, steps) ==> Consistent(Run(s, steps))
  }

  /**
    The exact condition: a publication that starts under a fresh number is safe, whatever happens
    next, if and only if no other publisher is at work, be it one that cleans up after a failure.
   */
  lemma {:induction false} StartIsSafeIffAlone(s: State, q: Pid, publication: nat, verdict: AcceptanceVerdict)
    requires Inv(s) && q !in s.publishers && Fresh(s, publication)
    ensures AlwaysConsistent(Next(s, Start(q, publication, verdict))) <==> s.publishers == map[]
  {
    var t := Next(s, Start(q, publication, verdict));
    if s.publishers == map[] {
      StepKeepsInv(s, Start(q, publication, verdict));
      forall steps | OneAtATime(t, steps) ensures Consistent(Run(t, steps)) {
        PublicationIsConsistent(t, steps);
      }
    } else {
      var p :| p in s.publishers;
      var steps := OverlapBreaks(t, p, q);
      NoStartIsOneAtATime(t, steps);
    }
  }

  const NOTHING := State(None, None, map[])

  /** Overlap does break it: a run from the empty directory that ends inconsistent. */
  lemma {:induction false} OverlapBreaksConsistency(verdict: AcceptanceVerdict) returns (steps: seq<Step>)
    ensures NoStart(steps)
    ensures !Consistent(Run(NOTHING, [Start(0, 0, verdict), Start(1, 1, verdict)] + steps))
  {
    var s1 := Next(NOTHING, Start(0, 0, verdict));
    var s2 := Next(s1, Start(1, 1, verdict));
    steps := OverlapBreaks(s2, 0, 1);
    assert [Start(0, 0, verdict), Start(1, 1, verdict)] + steps
           == [Start(0, 0, verdict)] + ([Start(1, 1, verdict)] + steps);
    RunCons(NOTHING, Start(0, 0, verdict), [Start(1, 1, verdict)] + steps);
    RunCons(s1, Start(1, 1, verdict), steps);
  }
}
