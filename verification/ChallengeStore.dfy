/**
  One-time consumption of acceptance challenges (scripts/functional_acceptance.py) by any number
  of verifier processes, with machine crashes at any point.

  The challenge directory holds `<id>.json` (issued) and `<id>.consumed` (marked) names. Its
  volatile contents are what processes see; its durable contents are what a crash leaves.
 */
module ChallengeStore {
  import opened Common

  type Id = string
  type Pid = nat

  datatype Phase =
    | ScanIssued                // markers have been read, issued challenges not yet
    | Ready
    | Linking(id: Id)           // validation passed, _consume_challenge_once was called
    | SyncingLink(id: Id)
    | Unlinking(id: Id)
    | SyncingUnlink(id: Id)

  // A verifier and its trust context.
  datatype Verifier = Verifier(challenges: set<Id>, consumed: set<Id>, phase: Phase)

  // `accepted` lists the consuming validations that returned True, `looked` the others;
  // `everIssued` the durably issued challenges.
  datatype State = State(
    issued: set<Id>, marked: set<Id>, durableIssued: set<Id>, durableMarked: set<Id>,
    verifiers: map<Pid, Verifier>, accepted: seq<Id>, looked: seq<Id>, everIssued: set<Id>)

  datatype Step =
    | Issue(id: Id)                          // the issuer publishes a challenge, possibly again
    | Spawn(p: Pid)                          // a verifier starts and reads the markers
    | Load(p: Pid)                           // it reads the issued challenges
    | Validate(p: Pid, id: Id, genuine: bool)
    | Look(p: Pid, id: Id, genuine: bool)    // a validation with consume_challenge=False
    | Advance(p: Pid)                        // the next system call of the consumption
    | Fail(p: Pid)                           // that call raises OSError
    | Kill(p: Pid)
    | WriteBack(id: Id, marker: bool)        // the kernel persists one name on its own
    | Crash

  predicate Enabled(s: State, step: Step) {
    match step
    case Issue(_) => true
    case Spawn(p) => p !in s.verifiers
    case Load(p) => p in s.verifiers && s.verifiers[p].phase == ScanIssued
    case Validate(p, _, _) => p in s.verifiers && s.verifiers[p].phase == Ready
    case Look(p, _, _) => p in s.verifiers && s.verifiers[p].phase == Ready
    case Advance(p) => p in s.verifiers && s.verifiers[p].phase !in {ScanIssued, Ready}
    case Fail(p) => p in s.verifiers && s.verifiers[p].phase !in {ScanIssued, Ready}
    case Kill(p) => p in s.verifiers
    case WriteBack(_, _) => true
    case Crash => true
  }

  predicate Valid(v: Verifier, id: Id) { id in v.challenges && id !in v.consumed }

  function Go(s: State, p: Pid, phase: Phase): State
    requires p in s.verifiers
  {
    s.(verifiers := s.verifiers[p := s.verifiers[p].(phase := phase)])
  }

  function Sync(s: State): State {
    s.(durableIssued := s.issued, durableMarked := s.marked)
  }

  function Next(s: State, step: Step): State
    requires Enabled(s, step)
  {
    match step
    case Issue(id) =>
      s.(issued := s.issued + {id}, durableIssued := s.durableIssued + {id}, everIssued := s.everIssued + {id})
    case Spawn(p) => s.(verifiers := s.verifiers[p := Verifier({}, s.marked, ScanIssued)])
    case Load(p) => s.(verifiers := s.verifiers[p := s.verifiers[p].(challenges := s.issued, phase := Ready)])
    case Validate(p, id, genuine) =>
      // `genuine` stands for the binding, time window and signature checks.
      if Valid(s.verifiers[p], id) && genuine then Go(s, p, Linking(id)) else s
    case Look(p, id, genuine) => if Valid(s.verifiers[p], id) && genuine then s.(looked := s.looked + [id]) else s
    case Advance(p) => SystemCall(s, p)
    case Fail(p) => Go(s, p, Ready)
    case Kill(p) => s.(verifiers := s.verifiers - {p})
    case WriteBack(id, marker) =>
      if marker then s.(durableMarked := if id in s.marked then s.durableMarked + {id} else s.durableMarked - {id})
      else s.(durableIssued := if id in s.issued then s.durableIssued + {id} else s.durableIssued - {id})
    case Crash => s.(issued := s.durableIssued, marked := s.durableMarked, verifiers := map[])
  }

  function SystemCall(s: State, p: Pid): State
    requires p in s.verifiers
  {
    match s.verifiers[p].phase
    case Linking(id) =>
      // link(2) needs the issued name and refuses to replace an existing marker.
      if id in s.issued && id !in s.marked then Go(s.(marked := s.marked + {id}), p, SyncingLink(id))
      else Go(s, p, Ready)
    case SyncingLink(id) => Go(Sync(s), p, Unlinking(id))
    case Unlinking(id) =>
      if id in s.issued then Go(s.(issued := s.issued - {id}), p, SyncingUnlink(id)) else Go(s, p, Ready)
    case SyncingUnlink(id) =>
      var v := s.verifiers[p];
      Sync(s).(accepted := s.accepted + [id],
               verifiers := s.verifiers[p := v.(consumed := v.consumed + {id}, phase := Ready)])
    case _ => s
  }

  function Run(s: State, steps: seq<Step>): State
    decreases |steps|
  {
    if steps == [] then s else Run(if Enabled(s, steps[0]) then Next(s, steps[0]) else s, steps[1..])
  }

  const EMPTY := State({}, {}, {}, {}, map[], [], [], {})

  // ---- what every run satisfies ----

  // The challenge whose marker a verifier has created in the consumption it is performing.
  function Owned(v: Verifier): Option<Id> {
    match v.phase
    case SyncingLink(id) => Some(id)
    case Unlinking(id) => Some(id)
    case SyncingUnlink(id) => Some(id)
    case _ => None
  }

  predicate OwnerInv(s: State, p: Pid)
    requires p in s.verifiers
  {
    var own := Owned(s.verifiers[p]);
    own.Some? ==>
      && own.value in s.marked && own.value !in s.accepted
      && (!s.verifiers[p].phase.SyncingLink? ==> own.value in s.durableMarked)
      && (forall q :: q in s.verifiers && Owned(s.verifiers[q]) == own ==> q == p)
  }

  predicate Distinct(ids: seq<Id>) {
    forall i, j :: 0 <= i < j < |ids| ==> ids[i] != ids[j]
  }

  predicate Inv(s: State) {
    && s.durableMarked <= s.marked
    && Distinct(s.accepted)
    && (forall id :: id in s.accepted ==> id in s.durableMarked)
    && (forall id :: id in s.everIssued && (id !in s.issued || id !in s.durableIssued) ==> id in s.durableMarked)
    && (forall p :: p in s.verifiers ==> OwnerInv(s, p))
  }

  lemma {:induction false} CallKeepsInv(s: State, p: Pid)
    requires Inv(s) && p in s.verifiers
    ensures Inv(SystemCall(s, p))
  {
    var next := SystemCall(s, p);
    assert OwnerInv(s, p);
    forall q | q in next.verifiers ensures OwnerInv(next, q) {
      assert OwnerInv(s, q);
    }
  }

  lemma {:induction false} StepKeepsInv(s: State, step: Step)
    requires Inv(s) && Enabled(s, step)
    ensures Inv(Next(s, step)) && s.durableMarked <= Next(s, step).durableMarked && s.accepted <= Next(s, step).accepted
  {
    var next := Next(s, step);
    if step.Advance? {
      CallKeepsInv(s, step.p);
    } else {
      forall q | q in next.verifiers ensures OwnerInv(next, q) {
        if q in s.verifiers {
          assert OwnerInv(s, q);
        }
      }
    }
  }

  /**
    Across every interleaving of verifiers and every crash: a challenge is accepted at most once,
    an accepted challenge's marker is durable, an issued name never goes missing from the
    directory or from disk before its marker is durable, and durable markers and acceptances
    only ever grow.
   */
  lemma {:induction false} EveryRunConsumesOnce(s: State, steps: seq<Step>)
    requires Inv(s)
    ensures var end := Run(s, steps);
            Inv(end) && s.durableMarked <= end.durableMarked && s.accepted <= end.accepted
    decreases |steps|
  {
    if steps != [] {
      if Enabled(s, steps[0]) {
        StepKeepsInv(s, steps[0]);
        EveryRunConsumesOnce(Next(s, steps[0]), steps[1..]);
      } else {
        EveryRunConsumesOnce(s, steps[1..]);
      }
    }
  }

  lemma {:induction false} AtMostOneAcceptance(steps: seq<Step>, i: nat, j: nat)
    requires i < j < |Run(EMPTY, steps).accepted|
    ensures Run(EMPTY, steps).accepted[i] != Run(EMPTY, steps).accepted[j]
  {
    EveryRunConsumesOnce(EMPTY, steps);
  }

  // The same validation without consumption, n times.
  function Looks(p: Pid, id: Id, n: nat): seq<Step> { seq(n, _ => Look(p, id, true)) }

  /** Only consumption is limited: a loaded challenge passes any number of other validations, which change nothing. */
  lemma {:induction false} LooksAreUnlimited(s: State, p: Pid, id: Id, n: nat)
    requires p in s.verifiers && s.verifiers[p].phase == Ready && Valid(s.verifiers[p], id)
    ensures Run(s, Looks(p, id, n)) == s.(looked := s.looked + seq(n, _ => id))
    decreases n
  {
    if n == 0 {
      assert s.looked + [] == s.looked;
    } else {
      var next := s.(looked := s.looked + [id]);
      assert Looks(p, id, n)[1..] == Looks(p, id, n - 1);
      LooksAreUnlimited(next, p, id, n - 1);
      assert s.looked + seq(n, _ => id) == next.looked + seq(n - 1, _ => id);
    }
  }

  /** After an acceptance and any further run, even a crash at the end leaves the marker in place. */
  lemma {:induction false} AcceptedStaysMarkedAfterCrash(before: seq<Step>, after: seq<Step>, id: Id)
    requires id in Run(EMPTY, before).accepted
    ensures id in Next(Run(Run(EMPTY, before), after), Crash).marked
  {
    EveryRunConsumesOnce(EMPTY, before);
    EveryRunConsumesOnce(Run(EMPTY, before), after);
  }

  // Every name in the directory, on disk or in a verifier's memory has been issued.
  ghost predicate AllIssued(s: State) {
    && s.issued <= s.everIssued && s.durableIssued <= s.everIssued
    && s.marked <= s.everIssued && s.durableMarked <= s.everIssued
    && (forall id :: id in s.accepted || id in s.looked ==> id in s.everIssued)
    && (forall p :: p in s.verifiers ==> MemoryIssued(s, s.verifiers[p]))
  }

  ghost predicate MemoryIssued(s: State, v: Verifier) {
    v.challenges <= s.everIssued && forall id :: About(v.phase, id) ==> id in s.everIssued
  }

  lemma {:induction false} StepKeepsIssued(s: State, step: Step)
    requires AllIssued(s) && Enabled(s, step)
    ensures AllIssued(Next(s, step))
  {
    var next := Next(s, step);
    forall p | p in next.verifiers ensures MemoryIssued(next, next.verifiers[p]) {
      if p in s.verifiers {
        assert MemoryIssued(s, s.verifiers[p]);
      }
    }
    if step.Advance? || step.Validate? || step.Look? || step.Load? {
      assert MemoryIssued(s, s.verifiers[step.p]);
    }
  }

  /** In every run, only challenges that were issued are accepted, marked or pass a validation. */
  lemma {:induction false} OnlyIssuedAreAccepted(s: State, steps: seq<Step>)
    requires AllIssued(s)
    ensures AllIssued(Run(s, steps))
    decreases |steps|
  {
    if steps != [] {
      if Enabled(s, steps[0]) {
        StepKeepsIssued(s, steps[0]);
        OnlyIssuedAreAccepted(Next(s, steps[0]), steps[1..]);
      } else {
        OnlyIssuedAreAccepted(s, steps[1..]);
      }
    }
  }

  /**
    The marker is created exactly for an issued name that has none; otherwise the consumption ends
    and the directory stays as it is.
   */
  lemma {:induction false} LinkMeans(s: State, p: Pid, id: Id)
    requires Enabled(s, Advance(p)) && s.verifiers[p].phase == Linking(id)
    ensures var next := Next(s, Advance(p));
            && next.issued == s.issued && next.accepted == s.accepted
            && next.marked == (if id in s.issued && id !in s.marked then s.marked + {id} else s.marked)
            && (next.verifiers[p].phase == SyncingLink(id) <==> id in s.issued && id !in s.marked)
            && (next.verifiers[p].phase == Ready <==> id !in s.issued || id in s.marked)
  {
  }

  // ---- validations after a consumption ----

  // If the verifier is running, it has the challenge among the consumed ones.
  predicate Knows(s: State, q: Pid, id: Id) { q in s.verifiers ==> id in s.verifiers[q].consumed }

  /**
    A verifier that accepts a challenge, and every verifier that starts after an acceptance, knows
    it for ever and refuses it in every later validation, consuming or not.
   */
  lemma {:induction false} KnownIsRefused(s: State, steps: seq<Step>, q: Pid, id: Id, genuine: bool)
    requires Inv(s) && id in s.accepted && Knows(s, q, id)
    ensures var end := Run(s, steps);
            && Knows(end, q, id)
            && (Enabled(end, Look(q, id, genuine)) ==> Next(end, Look(q, id, genuine)) == end)
            && (Enabled(end, Validate(q, id, genuine)) ==> Next(end, Validate(q, id, genuine)) == end)
    decreases |steps|
  {
    if steps != [] {
      if Enabled(s, steps[0]) {
        StepKeepsInv(s, steps[0]);
        var next := Next(s, steps[0]);
        assert Knows(next, q, id);
        KnownIsRefused(next, steps[1..], q, id, genuine);
      } else {
        KnownIsRefused(s, steps[1..], q, id, genuine);
      }
    }
  }

  /** The call that accepts a challenge also makes its verifier know it. */
  lemma AcceptingMakesKnown(s: State, q: Pid, id: Id)
    requires Enabled(s, Advance(q)) && s.verifiers[q].phase == SyncingUnlink(id)
    ensures var next := Next(s, Advance(q)); id in next.accepted && Knows(next, q, id)
  {
  }

  // The verifier lives through the steps, and does not itself try to consume the challenge.
  predicate LeavesAlone(steps: seq<Step>, q: Pid, id: Id) {
    forall i :: 0 <= i < |steps| ==>
                  && steps[i] != Kill(q) && steps[i] != Crash
                  && (steps[i].Validate? && steps[i].p == q ==> steps[i].id != id)
  }

  predicate About(phase: Phase, id: Id) {
    match phase
    case Linking(other) => other == id
    case SyncingLink(other) => other == id
    case Unlinking(other) => other == id
    case SyncingUnlink(other) => other == id
    case _ => false
  }

  predicate Loaded(s: State, q: Pid, id: Id) {
    q in s.verifiers && s.verifiers[q].phase != ScanIssued && !About(s.verifiers[q].phase, id)
  }

  lemma {:induction false} ContextStays(s: State, steps: seq<Step>, q: Pid, id: Id)
    requires Loaded(s, q, id) && LeavesAlone(steps, q, id)
    ensures var end := Run(s, steps);
            Loaded(end, q, id) && (Valid(end.verifiers[q], id) <==> Valid(s.verifiers[q], id))
    decreases |steps|
  {
    if steps != [] {
      assert LeavesAlone(steps[1..], q, id);
      if Enabled(s, steps[0]) {
        var next := Next(s, steps[0]);
        assert steps[0] != Kill(q) && steps[0] != Crash;
        assert Loaded(next, q, id) && (Valid(next.verifiers[q], id) <==> Valid(s.verifiers[q], id));
        ContextStays(next, steps[1..], q, id);
      } else {
        ContextStays(s, steps[1..], q, id);
      }
    }
  }

  /**
    The exact condition: a verifier lets a challenge pass its other validations if and only if the
    challenge was issued and not marked when the verifier read the directory, whatever other
    verifiers have consumed since.
   */
  lemma {:induction false} LooksFollowTheStart(s: State, steps: seq<Step>, q: Pid, id: Id)
    requires q !in s.verifiers && LeavesAlone(steps, q, id)
    ensures var end := Run(Next(Next(s, Spawn(q)), Load(q)), steps);
            Enabled(end, Look(q, id, true)) ==>
              (Next(end, Look(q, id, true)).looked == end.looked + [id] <==> id in s.issued && id !in s.marked)
  {
    var start := Next(Next(s, Spawn(q)), Load(q));
    ContextStays(start, steps, q, id);
    var end := Run(start, steps);
    assert |end.looked + [id]| != |end.looked|;
  }

  function Consumption(p: Pid, id: Id): seq<Step> {
    [Spawn(p), Load(p), Validate(p, id, true), Advance(p), Advance(p), Advance(p), Advance(p)]
  }

  /** The property is not empty: an issued, unmarked challenge is accepted by an undisturbed verifier. */
  lemma {:induction false} FreshChallengeIsAccepted(s: State, p: Pid, id: Id)
    requires p !in s.verifiers && id in s.issued && id !in s.marked
    ensures var end := Run(s, Consumption(p, id));
            && end.accepted == s.accepted + [id]
            && id in end.durableMarked && id !in end.durableIssued
  {
    var calls := [Advance(p), Advance(p), Advance(p), Advance(p)];
    assert Consumption(p, id) == [Spawn(p)] + ([Load(p)] + ([Validate(p, id, true)] + calls));
    var s1 := Next(s, Spawn(p));
    var s2 := Next(s1, Load(p));
    var s3 := Next(s2, Validate(p, id, true));
    RunCons(s, Spawn(p), [Load(p)] + ([Validate(p, id, true)] + calls));
    RunCons(s1, Load(p), [Validate(p, id, true)] + calls);
    RunCons(s2, Validate(p, id, true), calls);
    CallsAccept(s3, p, id);
  }

  lemma {:induction false} RunCons(s: State, step: Step, rest: seq<Step>)
    requires Enabled(s, step)
    ensures Run(s, [step] + rest) == Run(Next(s, step), rest)
  {
    assert ([step] + rest)[1..] == rest;
  }

  lemma {:induction false} CallsAccept(s: State, p: Pid, id: Id)
    requires p in s.verifiers && s.verifiers[p].phase == Linking(id) && id in s.issued && id !in s.marked
    ensures var end := Run(s, [Advance(p), Advance(p), Advance(p), Advance(p)]);
            && end.accepted == s.accepted + [id]
            && id in end.durableMarked && id !in end.durableIssued
  {
    var call := Advance(p);
    var s1 := Next(s, call);
    var s2 := Next(s1, call);
    var s3 := Next(s2, call);
    var s4 := Next(s3, call);
    assert [call, call, call, call] == [call] + ([call] + ([call] + ([call] + [])));
    RunCons(s, call, [call] + ([call] + ([call] + [])));
    RunCons(s1, call, [call] + ([call] + []));
    RunCons(s2, call, [call] + []);
    RunCons(s3, call, []);
  }

  // ---- one call, as it changes the directory ----

  // Which of the five system calls fail, if any.
  datatype Faults = Faults(open: bool, link: bool, syncLink: bool, unlink: bool, syncUnlink: bool)

  const JSON := ".json"

  class Directory {
    var issued: set<Id>
    var marked: set<Id>
    var durableIssued: set<Id>
    var durableMarked: set<Id>

    constructor ()
      ensures issued == marked == durableIssued == durableMarked == {}
    {
      issued, marked, durableIssued, durableMarked := {}, {}, {}, {};
    }

    /**
      _consume_challenge_once. True means that the marker is durable and the issued name durably
      gone; whatever fails, no marker is ever removed, and the issued name stays unless the
      marker is durable.
     */
    method ConsumeOnce(name: string, faults: Faults) returns (consumed: bool)
      modifies this
      ensures consumed <==>
              && |JSON| <= |name| && name[|name| - |JSON|..] == JSON
              && faults == Faults(false, false, false, false, false)
              && name[..|name| - |JSON|] in old(issued) && name[..|name| - |JSON|] !in old(marked)
      ensures old(marked) <= marked
      ensures consumed ==>
                var id := name[..|name| - |JSON|];
                && marked == old(marked) + {id} == durableMarked
                && issued == old(issued) - {id} == durableIssued
      ensures forall id :: id in old(issued) && id !in issued ==> id in durableMarked
    {
      if |name| < |JSON| || name[|name| - |JSON|..] != JSON {
        return false;
      }
      var id := name[..|name| - |JSON|];
      if faults.open {
        return false;
      }
      if faults.link || id !in issued || id in marked {
        return false;
      }
      marked := marked + {id};
      if faults.syncLink {
        return false;
      }
      durableIssued, durableMarked := issued, marked;
      if faults.unlink {
        return false;
      }
      issued := issued - {id};
      if faults.syncUnlink {
        return false;
      }
      durableIssued, durableMarked := issued, marked;
      return true;
    }
  }
}
