/**
  How one upload's object reaches its published key: maintenance workers (app/maintenance.py),
  completion and abort requests (app/api/v1/routes/files.py), object storage
  (app/services/storage.py) and the client that holds the upload URL.

  Every storage call is a step of its own and any program may be cancelled between two steps.
 */
module Publication {
  import opened Common
  import opened UploadRows

  datatype Mode = Single | Multipart

  // What a HEAD request reports about an object.
  datatype Stored = Stored(size: nat, checksum: Option<string>)

  // The declared SHA-256 in storage form, or a database representation that is not valid.
  datatype Declared = Undeclared | Sha256(text: string) | Malformed

  // The immutable facts of an upload. A declared size is positive.
  datatype Plan = Plan(mode: Mode, key: string, size: nat, declared: Declared) {
    ghost predicate Valid() {
      0 < size && (mode == Single ==> STAGING <= key)
    }
  }

  const STAGING := "staging/"
  const TOMBSTONE := Stored(0, None)  // seal_single_upload occupies the key with an empty object

  function FinalKey(key: string): string {
    if STAGING <= key then "objects/" + key[|STAGING|..] else key
  }

  function PublishedKey(plan: Plan): string {
    if plan.mode == Single then FinalKey(plan.key) else plan.key
  }

  // The object the upload promised.
  predicate Matches(stored: Stored, plan: Plan) {
    && stored.size == plan.size
    && plan.declared != Malformed
    && (plan.declared.Sha256? ==> stored.checksum == Some(plan.declared.text))
  }

  // staging_matches_claim.
  predicate PromotionTest(stored: Stored, plan: Plan) {
    && stored.size == plan.size
    && plan.declared != Malformed
    && (plan.declared == Undeclared || (stored.checksum.Some? && stored.checksum.value == plan.declared.text))
  }

  datatype Rejection = SizeMismatch | ChecksumMismatch

  function Rejected(stored: Stored, plan: Plan): Option<Rejection> {
    if stored.size != plan.size then Some(SizeMismatch)
    else if plan.declared == Malformed
         || (plan.declared.Sha256? && (stored.checksum.None? || stored.checksum.value != plan.declared.text))
    then Some(ChecksumMismatch)
    else None
  }

  /** The promotion test and the rejection tests are exact complements, and both mean `Matches`. */
  lemma TestsAreComplementary(stored: Stored, plan: Plan)
    ensures PromotionTest(stored, plan) <==> Rejected(stored, plan).None?
    ensures PromotionTest(stored, plan) <==> Matches(stored, plan)
  {
  }

  datatype Role = Worker(original: SessionStatus) | Request

  // What follows once the published object has been deleted.
  datatype Tail = End | RecordRejection | AbandonRejected(original: SessionStatus)

  datatype Program =
    | Assemble                                        // complete_multipart_upload
    | HeadPublished(role: Role)
    | HeadStaging(role: Role)
    | CopyStaging(role: Role)
    | HeadCopied(role: Role)
    | SealStaging(role: Role, stored: Stored)
    | Publish(role: Role, stored: Stored)             // the re-lock of the row
    | DropPublished(tail: Tail)
    | SealDropped(tail: Tail)
    | Record                                          // FINALIZING becomes FAILED
    | Abandon(original: SessionStatus, rejected: bool)
    | EndClaim(original: SessionStatus, rejected: bool)
    | SealAborted

  type Actor = nat

  datatype State =
    State(status: SessionStatus, fileKey: string, store: map<string, Stored>, programs: map<Actor, Program>)

  // Inputs from outside: a part assembly result, and whether the owner is still authorised.
  datatype Input = Input(assembled: Stored, authorised: bool)

  datatype Step =
    | ClientPut(item: Stored)          // the create-only staging URL
    | StartClaim(a: Actor)
    | StartComplete(a: Actor)
    | StartAbort(a: Actor)
    | Do(a: Actor, input: Input)
    | Cancel(a: Actor)                   // deadline, storage error or crash

  predicate Enabled(plan: Plan, s: State, step: Step) {
    match step
    case ClientPut(_) => plan.mode == Single && plan.key !in s.store
    case StartClaim(a) => a !in s.programs && s.status in {Initiated, Finalizing, Aborted, Expired}
    case StartComplete(a) => a !in s.programs && s.status in {Initiated, Finalizing} && plan.declared != Malformed
    case StartAbort(a) => a !in s.programs && s.status !in {Completed, Expired}
    case Do(a, _) => a in s.programs
    case Cancel(a) => a in s.programs
  }

  function Become(s: State, a: Actor, p: Program): State {
    s.(programs := s.programs[a := p])
  }

  function Stop(s: State, a: Actor): State {
    s.(programs := s.programs - {a})
  }

  function Put(s: State, key: string, item: Stored): State {
    s.(store := s.store[key := item])
  }

  // The decision after the stored object has been inspected.
  function Decide(plan: Plan, role: Role, stored: Stored): Program {
    if Rejected(stored, plan).None? then Publish(role, stored)
    else DropPublished(if role.Worker? then AbandonRejected(role.original) else RecordRejection)
  }

  function Continue(s: State, a: Actor, tail: Tail): State {
    match tail
    case End => Stop(s, a)
    case RecordRejection => Become(s, a, Record)
    case AbandonRejected(original) => Become(s, a, Abandon(original, true))
  }

  function SettledAs(status: SessionStatus, original: SessionStatus, rejected: bool): SessionStatus {
    SettledStatus(Upload(status, 0.0, []), original, rejected)
  }

  function Perform(plan: Plan, s: State, a: Actor, input: Input): State
    requires a in s.programs
  {
    var key, published := plan.key, PublishedKey(plan);
    match s.programs[a]
    case Assemble => Become(Put(s, key, input.assembled), a, HeadPublished(Request))
    case HeadPublished(role) =>
      if published in s.store then Become(s, a, Decide(plan, role, s.store[published]))
      else if plan.mode == Single then Become(s, a, HeadStaging(role))
      else if role.Worker? then Become(s, a, Abandon(role.original, false))
      else Stop(s, a)
    case HeadStaging(role) =>
      if key !in s.store then (if role.Worker? then Become(s, a, Abandon(role.original, false)) else Stop(s, a))
      else if role.Worker? && !PromotionTest(s.store[key], plan) then Become(s, a, Decide(plan, role, s.store[key]))
      else Become(s, a, CopyStaging(role))
    case CopyStaging(role) =>
      if key in s.store then Become(Put(s, published, s.store[key]), a, HeadCopied(role)) else Stop(s, a)
    case HeadCopied(role) =>
      if published in s.store then Become(s, a, SealStaging(role, s.store[published])) else Stop(s, a)
    case SealStaging(role, stored) => Become(Put(s, key, TOMBSTONE), a, Decide(plan, role, stored))
    case Publish(role, stored) =>
      if role.Request? && s.status == Completed && input.authorised then Stop(s, a)
      else if s.status != Finalizing || (role.Request? && !input.authorised) then Become(s, a, DropPublished(End))
      else Stop(s.(status := Completed, fileKey := published), a)
    case DropPublished(tail) =>
      var dropped := s.(store := s.store - {published});
      if plan.mode == Single then Become(dropped, a, SealDropped(tail)) else Continue(dropped, a, tail)
    case SealDropped(tail) => Continue(Put(s, key, TOMBSTONE), a, tail)
    case Record => Stop(if s.status == Finalizing then s.(status := Failed) else s, a)
    case Abandon(original, rejected) =>
      Become(if plan.mode == Single then Put(s, key, TOMBSTONE) else s, a, EndClaim(original, rejected))
    case EndClaim(original, rejected) =>
      Stop(if s.status == Completed then s else s.(status := SettledAs(s.status, original, rejected)), a)
    case SealAborted => Stop(if plan.mode == Single then Put(s, key, TOMBSTONE) else s, a)
  }

  function Next(plan: Plan, s: State, step: Step): State
    requires Enabled(plan, s, step)
  {
    match step
    case ClientPut(item) => Put(s, plan.key, item)
    case StartClaim(a) =>
      Become(s.(status := if s.status == Initiated then Expired else s.status), a,
             if s.status == Finalizing then HeadPublished(Worker(Finalizing)) else Abandon(s.status, false))
    case StartComplete(a) =>
      Become(s.(status := Finalizing), a, if plan.mode == Multipart then Assemble else HeadPublished(Request))
    case StartAbort(a) => Become(s.(status := Aborted), a, SealAborted)
    case Do(a, input) => Perform(plan, s, a, input)
    case Cancel(a) => Stop(s, a)
  }

  function Apply(plan: Plan, s: State, step: Step): State {
    if Enabled(plan, s, step) then Next(plan, s, step) else s
  }

  function Run(plan: Plan, s: State, steps: seq<Step>): State
    decreases |steps|
  {
    if steps == [] then s else Run(plan, Apply(plan, s, steps[0]), steps[1..])
  }

  function Start(plan: Plan): State {
    State(Initiated, plan.key, map[], map[])
  }

  // ---- what holds however programs interleave ----

  // A program that is about to publish has seen the promised object, and the programs of one mode
  // do not occur in the other.
  predicate WellFormed(plan: Plan, p: Program) {
    && (p.Publish? ==> Matches(p.stored, plan))
    && (p.HeadStaging? || p.CopyStaging? || p.HeadCopied? || p.SealStaging? || p.SealDropped? ==> plan.mode == Single)
    && (p.Assemble? ==> plan.mode == Multipart)
  }

  predicate AllWellFormed(plan: Plan, s: State) {
    forall a :: a in s.programs ==> WellFormed(plan, s.programs[a])
  }

  lemma {:induction false} StepKeepsWellFormed(plan: Plan, s: State, step: Step)
    requires AllWellFormed(plan, s)
    ensures AllWellFormed(plan, Apply(plan, s, step))
  {
    if step.Do? && step.a in s.programs {
      assert WellFormed(plan, s.programs[step.a]);
    }
  }

  lemma {:induction false} RunKeepsWellFormed(plan: Plan, s: State, steps: seq<Step>)
    requires AllWellFormed(plan, s)
    ensures AllWellFormed(plan, Run(plan, s, steps))
    decreases |steps|
  {
    if steps != [] {
      StepKeepsWellFormed(plan, s, steps[0]);
      RunKeepsWellFormed(plan, Apply(plan, s, steps[0]), steps[1..]);
    }
  }

  // At some point of a run from the start, the published key held exactly this object.
  predicate Held(plan: Plan, steps: seq<Step>, stored: Stored) {
    exists n :: 0 <= n <= |steps| && HeldAfter(plan, steps[..n], stored)
  }

  predicate HeldAfter(plan: Plan, steps: seq<Step>, stored: Stored) {
    var s := Run(plan, Start(plan), steps);
    PublishedKey(plan) in s.store && s.store[PublishedKey(plan)] == stored
  }

  // What a program remembers of the published object was there once.
  predicate Remembers(plan: Plan, steps: seq<Step>, p: Program) {
    (p.SealStaging? || p.Publish?) ==> Held(plan, steps, p.stored)
  }

  lemma {:induction false} HeldStays(plan: Plan, steps: seq<Step>, step: Step, stored: Stored)
    requires Held(plan, steps, stored)
    ensures Held(plan, steps + [step], stored)
  {
    var n :| 0 <= n <= |steps| && HeldAfter(plan, steps[..n], stored);
    assert (steps + [step])[..n] == steps[..n];
  }

  lemma {:induction false} HeldNow(plan: Plan, steps: seq<Step>, step: Step, stored: Stored)
    requires HeldAfter(plan, steps, stored)
    ensures Held(plan, steps + [step], stored)
  {
    assert (steps + [step])[..|steps|] == steps;
  }

  lemma {:induction false} RunSnoc(plan: Plan, s: State, steps: seq<Step>, step: Step)
    ensures Run(plan, s, steps + [step]) == Apply(plan, Run(plan, s, steps), step)
    decreases |steps|
  {
    if steps == [] {
      assert steps + [step] == [step] && [step][1..] == [];
      assert Run(plan, s, [step]) == Run(plan, Apply(plan, s, step), []);
    } else {
      assert (steps + [step])[1..] == steps[1..] + [step];
      RunSnoc(plan, Apply(plan, s, steps[0]), steps[1..], step);
    }
  }

  predicate RemembersObject(p: Program, stored: Stored) { (p.SealStaging? || p.Publish?) && p.stored == stored }

  // What the next program of an actor remembers, it has just read or remembered before.
  lemma {:induction false} PerformReads(plan: Plan, s: State, a: Actor, input: Input, stored: Stored)
    requires a in s.programs && a in Perform(plan, s, a, input).programs
    requires RemembersObject(Perform(plan, s, a, input).programs[a], stored)
    ensures || RemembersObject(s.programs[a], stored)
            || (PublishedKey(plan) in s.store && s.store[PublishedKey(plan)] == stored)
  {
    if s.programs[a].HeadStaging? && plan.key in s.store {
      TestsAreComplementary(s.store[plan.key], plan);
    }
  }

  lemma {:induction false} MemoryComesFromStore(plan: Plan, s: State, step: Step, a: Actor, stored: Stored)
    requires a in Apply(plan, s, step).programs && RemembersObject(Apply(plan, s, step).programs[a], stored)
    ensures || (a in s.programs && RemembersObject(s.programs[a], stored))
            || (PublishedKey(plan) in s.store && s.store[PublishedKey(plan)] == stored)
  {
    if step.Do? && step.a in s.programs {
      if step.a == a {
        PerformReads(plan, s, a, step.input, stored);
      } else {
        OthersUntouched(plan, s, step.a, step.input);
      }
    }
  }

  lemma OthersUntouched(plan: Plan, s: State, a: Actor, input: Input)
    requires a in s.programs
    ensures OthersKept(s, Perform(plan, s, a, input), a)
  {
  }

  lemma {:induction false} ProgramsRemember(plan: Plan, steps: seq<Step>, a: Actor)
    requires a in Run(plan, Start(plan), steps).programs
    ensures Remembers(plan, steps, Run(plan, Start(plan), steps).programs[a])
    decreases |steps|
  {
    if steps != [] {
      var before, step := steps[..|steps| - 1], steps[|steps| - 1];
      var s := Run(plan, Start(plan), before);
      assert steps == before + [step];
      RunSnoc(plan, Start(plan), before, step);
      if a in s.programs {
        ProgramsRemember(plan, before, a);
      }
      var p := Apply(plan, s, step).programs[a];
      if p.SealStaging? || p.Publish? {
        MemoryComesFromStore(plan, s, step, a, p.stored);
        if PublishedKey(plan) in s.store && s.store[PublishedKey(plan)] == p.stored {
          HeldNow(plan, before, step, p.stored);
        } else {
          HeldStays(plan, before, step, p.stored);
        }
      }
    }
  }

  /**
    In every interleaving, a step that completes the upload is a re-lock by a program that
    inspected an object of the declared size and checksum, which the published key held at some
    earlier point, and it points the file at the published key.
   */
  lemma {:induction false} PublishedContentWasVerified(plan: Plan, steps: seq<Step>, step: Step)
    requires var s := Run(plan, Start(plan), steps); s.status != Completed && Apply(plan, s, step).status == Completed
    ensures var s := Run(plan, Start(plan), steps);
            && step.Do? && step.a in s.programs && s.programs[step.a].Publish?
            && Matches(s.programs[step.a].stored, plan)
            && Held(plan, steps, s.programs[step.a].stored)
            && Apply(plan, s, step).fileKey == PublishedKey(plan)
  {
    RunKeepsWellFormed(plan, Start(plan), steps);
    var s := Run(plan, Start(plan), steps);
    assert step.Do? && step.a in s.programs ==> WellFormed(plan, s.programs[step.a]);
    ProgramsRemember(plan, steps, step.a);
  }

  // ---- what holds when finalisations do not overlap ----

  // The programs that may still write or delete the published object.
  predicate Finalises(p: Program) {
    || p.Assemble? || p.HeadPublished? || p.HeadStaging? || p.CopyStaging? || p.HeadCopied? || p.SealStaging?
    || p.Publish? || p.DropPublished?
  }

  predicate InFlight(s: State) { exists a :: a in s.programs && Finalises(s.programs[a]) }

  // A step that starts a finalisation: a completion request, or a claim of a FINALIZING session.
  predicate StartsFinalisation(plan: Plan, s: State, step: Step) {
    Enabled(plan, s, step) && (step.StartComplete? || (step.StartClaim? && s.status == Finalizing))
  }

  // No finalisation starts while another is in flight. Aborts, claims that only clean up, late
  // rejections and settlements, and the client may come at any time.
  predicate OneFinalisation(plan: Plan, s: State, steps: seq<Step>)
    decreases |steps|
  {
    steps == [] ||
    (&& (StartsFinalisation(plan, s, steps[0]) ==> !InFlight(s))
     && OneFinalisation(plan, Apply(plan, s, steps[0]), steps[1..]))
  }

  // A completed upload's file row points at the published key and the promised object is there.
  predicate Intact(plan: Plan, s: State) {
    s.status == Completed ==>
      && s.fileKey == PublishedKey(plan)
      && s.fileKey in s.store && Matches(s.store[s.fileKey], plan)
  }

  // What a program remembers of the published object is still there.
  predicate Fits(plan: Plan, s: State, p: Program) {
    && WellFormed(plan, p)
    && (Finalises(p) ==> s.status != Completed)
    && (p.SealStaging? || p.Publish? ==> PublishedKey(plan) in s.store && s.store[PublishedKey(plan)] == p.stored)
  }

  predicate OneInv(plan: Plan, s: State) {
    && Intact(plan, s)
    && (forall a, b :: a in s.programs && b in s.programs && Finalises(s.programs[a]) && Finalises(s.programs[b]) ==>
       a == b)
    && (forall a :: a in s.programs ==> Fits(plan, s, s.programs[a]))
  }

  lemma {:induction false} KeysDiffer(plan: Plan)
    requires plan.Valid() && plan.mode == Single
    ensures PublishedKey(plan) != plan.key
  {
    assert PublishedKey(plan)[0] == 'o' && plan.key[0] == STAGING[0];
  }

  lemma {:induction false} OneStep(plan: Plan, s: State, step: Step)
    requires plan.Valid() && OneInv(plan, s) && Enabled(plan, s, step)
    requires StartsFinalisation(plan, s, step) ==> !InFlight(s)
    ensures OneInv(plan, Next(plan, s, step))
  {
    if plan.mode == Single {
      KeysDiffer(plan);
    }
    if step.Do? {
      assert Fits(plan, s, s.programs[step.a]);
      OnePerform(plan, s, step.a, step.input);
    }
  }

  // Only the acting program changes.
  predicate OthersKept(s: State, t: State, a: Actor) {
    forall b :: b in t.programs && b != a ==> b in s.programs && t.programs[b] == s.programs[b]
  }

  lemma {:induction false} FinaliserStep(plan: Plan, s: State, a: Actor, input: Input)
    requires Intact(plan, s) && a in s.programs && Fits(plan, s, s.programs[a]) && Finalises(s.programs[a])
    requires plan.mode == Single ==> PublishedKey(plan) != plan.key
    ensures var t := Perform(plan, s, a, input);
            && Intact(plan, t) && OthersKept(s, t, a)
            && (a in t.programs ==> Fits(plan, t, t.programs[a]))
  {
  }

  lemma {:induction false} OtherStep(plan: Plan, s: State, a: Actor, input: Input)
    requires Intact(plan, s) && a in s.programs && Fits(plan, s, s.programs[a]) && !Finalises(s.programs[a])
    requires plan.mode == Single ==> PublishedKey(plan) != plan.key
    ensures var t := Perform(plan, s, a, input);
            && Intact(plan, t) && OthersKept(s, t, a)
            && (t.status == Completed <==> s.status == Completed)
            && (PublishedKey(plan) in s.store ==>
                  PublishedKey(plan) in t.store && t.store[PublishedKey(plan)] == s.store[PublishedKey(plan)])
            && (a in t.programs ==> !Finalises(t.programs[a]) && Fits(plan, t, t.programs[a]))
  {
  }

  lemma {:induction false} OnePerform(plan: Plan, s: State, a: Actor, input: Input)
    requires OneInv(plan, s) && a in s.programs
    requires plan.mode == Single ==> PublishedKey(plan) != plan.key
    ensures OneInv(plan, Perform(plan, s, a, input))
  {
    var t := Perform(plan, s, a, input);
    assert Fits(plan, s, s.programs[a]);
    if Finalises(s.programs[a]) {
      FinaliserStep(plan, s, a, input);
    } else {
      OtherStep(plan, s, a, input);
    }
    forall b | b in t.programs ensures Fits(plan, t, t.programs[b]) {
      assert b != a ==> Fits(plan, s, s.programs[b]);
    }
  }

  /**
    Publication is sound: along any run in which finalisations of this upload do not overlap, but
    may be cancelled anywhere, started again and raced by aborts and expiry, a COMPLETED upload
    has the promised object at its published key, which in single mode is never the staging key.
   */
  lemma {:induction false} CompletedIsIntact(plan: Plan, s: State, steps: seq<Step>)
    requires plan.Valid() && OneInv(plan, s) && OneFinalisation(plan, s, steps)
    ensures OneInv(plan, Run(plan, s, steps)) && Intact(plan, Run(plan, s, steps))
    decreases |steps|
  {
    if steps != [] {
      if Enabled(plan, s, steps[0]) {
        OneStep(plan, s, steps[0]);
      }
      CompletedIsIntact(plan, Apply(plan, s, steps[0]), steps[1..]);
    }
  }

  lemma {:induction false} UploadIsSoundFromStart(plan: Plan, steps: seq<Step>)
    requires plan.Valid() && OneFinalisation(plan, Start(plan), steps)
    ensures Intact(plan, Run(plan, Start(plan), steps))
  {
    CompletedIsIntact(plan, Start(plan), steps);
  }

  // ---- what overlapping finalisations can lose ----

  // A completed upload on which no finalisation is in flight.
  predicate AtRest(plan: Plan, s: State) { s.status == Completed && OneInv(plan, s) && !InFlight(s) }

  lemma {:induction false} StepKeepsRest(plan: Plan, s: State, step: Step)
    requires plan.Valid() && AtRest(plan, s)
    ensures AtRest(plan, Apply(plan, s, step))
  {
    if Enabled(plan, s, step) {
      OneStep(plan, s, step);
      if step.Do? {
        if plan.mode == Single {
          KeysDiffer(plan);
        }
        assert Fits(plan, s, s.programs[step.a]);
        OtherStep(plan, s, step.a, step.input);
      }
      var t := Next(plan, s, step);
      assert t.status == Completed;
      assert forall a :: a in t.programs ==> Fits(plan, t, t.programs[a]);
    }
  }

  lemma {:induction false} RestIsForever(plan: Plan, s: State, steps: seq<Step>)
    requires plan.Valid() && AtRest(plan, s)
    ensures AtRest(plan, Run(plan, s, steps))
    decreases |steps|
  {
    if steps != [] {
      StepKeepsRest(plan, s, steps[0]);
      RestIsForever(plan, Apply(plan, s, steps[0]), steps[1..]);
    }
  }

  // How far a finalisation is from deleting the published object.
  function Distance(p: Program): nat {
    match p
    case Assemble => 7
    case HeadPublished(_) => 6
    case HeadStaging(_) => 5
    case CopyStaging(_) => 4
    case HeadCopied(_) => 3
    case SealStaging(_, _) => 2
    case Publish(_, _) => 1
    case _ => 0
  }

  // The step of a finalisation whose owner has lost the authorisation.
  const REVOKED := Input(TOMBSTONE, false)

  predicate NeedsStaging(p: Program) { p.HeadStaging? || p.CopyStaging? }

  lemma {:induction false} ComesCloser(plan: Plan, s: State, a: Actor)
    requires s.status == Completed && Intact(plan, s)
    requires a in s.programs && Finalises(s.programs[a]) && !s.programs[a].DropPublished?
             && WellFormed(plan, s.programs[a])
    requires NeedsStaging(s.programs[a]) ==> plan.key in s.store
    ensures var t := Apply(plan, s, Do(a, REVOKED));
            && t.status == Completed && a in t.programs
            && Finalises(t.programs[a]) && WellFormed(plan, t.programs[a])
            && Distance(t.programs[a]) < Distance(s.programs[a])
  {
  }

  lemma {:induction false} RunCons(plan: Plan, s: State, step: Step, rest: seq<Step>)
    ensures Run(plan, s, [step] + rest) == Run(plan, Apply(plan, s, step), rest)
  {
    assert ([step] + rest)[1..] == rest;
  }

  // Once the upload is COMPLETED, a finalisation still in flight can always go on to lose it.
  lemma {:induction false} CanLose(plan: Plan, s: State, a: Actor) returns (steps: seq<Step>)
    requires s.status == Completed && a in s.programs && Finalises(s.programs[a]) && WellFormed(plan, s.programs[a])
    ensures !Intact(plan, Run(plan, s, steps))
    decreases Distance(s.programs[a]), if plan.key in s.store then 0 else 1
  {
    if !Intact(plan, s) {
      return [];
    }
    var step := if NeedsStaging(s.programs[a]) && plan.key !in s.store then ClientPut(TOMBSTONE) else Do(a, REVOKED);
    var t := Apply(plan, s, step);
    var rest: seq<Step> := [];
    if s.programs[a].DropPublished? {
      assert PublishedKey(plan) !in t.store && t.status == Completed;
    } else if step.ClientPut? {
      rest := CanLose(plan, t, a);
    } else {
      ComesCloser(plan, s, a);
      rest := CanLose(plan, t, a);
    }
    RunCons(plan, s, step, rest);
    return [step] + rest;
  }

  ghost predicate AlwaysIntact(plan: Plan, s: State) {
    forall steps :: Intact(plan, Run(plan, s, steps))
  }

  /**
    The exact condition from a COMPLETED state: the upload is intact whatever happens if and only
    if its object is there and no finalisation, of a worker or of a request, is still in flight.
   */
  lemma {:induction false} StaysIntactIffNoneInFlight(plan: Plan, s: State)
    requires plan.Valid() && AllWellFormed(plan, s) && s.status == Completed
    ensures AlwaysIntact(plan, s) <==> Intact(plan, s) && !InFlight(s)
  {
    assert Run(plan, s, []) == s;
    if InFlight(s) {
      var a :| a in s.programs && Finalises(s.programs[a]);
      var steps := CanLose(plan, s, a);
    } else if Intact(plan, s) {
      assert OneInv(plan, s) by {
        forall a | a in s.programs ensures Fits(plan, s, s.programs[a]) {
          assert WellFormed(plan, s.programs[a]);
        }
      }
      forall steps ensures Intact(plan, Run(plan, s, steps)) {
        RestIsForever(plan, s, steps);
      }
    }
  }

  // The re-lock by which `a` completes the upload.
  predicate Completes(s: State, step: Step) {
    && s.status == Finalizing && step.Do? && step.a in s.programs && s.programs[step.a].Publish?
    && (s.programs[step.a].role.Request? ==> step.input.authorised)
  }

  predicate ObjectIsThere(plan: Plan, s: State) {
    PublishedKey(plan) in s.store && Matches(s.store[PublishedKey(plan)], plan)
  }

  /**
    The exact condition at the completing step: the upload it completes is intact then and ever
    after if and only if the promised object is still at the published key and no other
    finalisation is in flight.
   */
  lemma {:induction false} CompletionIsSafeIff(plan: Plan, s: State, step: Step)
    requires plan.Valid() && AllWellFormed(plan, s) && Completes(s, step)
    ensures AlwaysIntact(plan, Apply(plan, s, step)) <==>
              && ObjectIsThere(plan, s)
              && forall b :: b in s.programs && b != step.a ==> !Finalises(s.programs[b])
  {
    var t := Apply(plan, s, step);
    StepKeepsWellFormed(plan, s, step);
    StaysIntactIffNoneInFlight(plan, t);
    assert t == Stop(s.(status := Completed, fileKey := PublishedKey(plan)), step.a);
    assert forall b :: b in t.programs <==> b in s.programs && b != step.a;
    assert forall b :: b in t.programs ==> t.programs[b] == s.programs[b];
  }

  const EXAMPLE := Plan(Multipart, "objects/users/1/file.pdf", 10, Undeclared)
  const OBJECT := Stored(10, None)
  const IN := Input(OBJECT, true)

  // A request is interrupted after assembling the object; a worker claims and inspects it; the
  // client retries and its request completes; then the worker re-locks the row.
  const LOST_UPDATE :=
    [StartComplete(0), Do(0, IN), Cancel(0),
     StartClaim(1), Do(1, IN),
     StartComplete(2), Do(2, IN), Do(2, IN), Do(2, IN),
     Do(1, IN), Do(1, IN), Cancel(1)]

  lemma {:induction false} RunSplit(plan: Plan, s: State, before: seq<Step>, after: seq<Step>)
    ensures Run(plan, s, before + after) == Run(plan, Run(plan, s, before), after)
    decreases |before|
  {
    if before == [] {
      assert before + after == after;
    } else {
      assert (before + after)[1..] == before[1..] + after;
      RunSplit(plan, Apply(plan, s, before[0]), before[1..], after);
    }
  }

  lemma {:induction false} Unroll3(plan: Plan, s: State, a: Step, b: Step, c: Step)
    ensures Run(plan, s, [a, b, c]) == Apply(plan, Apply(plan, Apply(plan, s, a), b), c)
  {
    var s1 := Apply(plan, s, a);
    var s2 := Apply(plan, s1, b);
    assert [a, b, c][1..] == [b, c] && [b, c][1..] == [c] && [c][1..] == [];
    assert Run(plan, s2, [c]) == Run(plan, Apply(plan, s2, c), []);
    assert Run(plan, s1, [b, c]) == Run(plan, s2, [c]);
  }

  function Finalising(programs: map<Actor, Program>): State {
    State(Finalizing, EXAMPLE.key, map[EXAMPLE.key := OBJECT], programs)
  }

  lemma {:induction false} RunOfThree(s: State, a: Step, b: Step, c: Step, t: State)
    requires Apply(EXAMPLE, Apply(EXAMPLE, Apply(EXAMPLE, s, a), b), c) == t
    ensures Run(EXAMPLE, s, [a, b, c]) == t
  {
    Unroll3(EXAMPLE, s, a, b, c);
  }

  lemma {:induction false} InterruptedRequest()
    ensures Run(EXAMPLE, Start(EXAMPLE), [StartComplete(0), Do(0, IN), Cancel(0)]) == Finalising(map[])
  {
    RunOfThree(Start(EXAMPLE), StartComplete(0), Do(0, IN), Cancel(0), Finalising(map[]));
  }

  lemma {:induction false} WorkerInspects()
    ensures Run(EXAMPLE, Finalising(map[]), [StartClaim(1), Do(1, IN), StartComplete(2)])
         == Finalising(map[1 := Publish(Worker(Finalizing), OBJECT), 2 := Assemble])
  {
    RunOfThree(Finalising(map[]), StartClaim(1), Do(1, IN), StartComplete(2),
               Finalising(map[1 := Publish(Worker(Finalizing), OBJECT), 2 := Assemble]));
  }

  lemma {:induction false} RequestCompletes(publish: Program)
    ensures Run(EXAMPLE, Finalising(map[1 := publish, 2 := Assemble]), [Do(2, IN), Do(2, IN), Do(2, IN)])
         == Finalising(map[1 := publish]).(status := Completed)
  {
    RunOfThree(Finalising(map[1 := publish, 2 := Assemble]), Do(2, IN), Do(2, IN), Do(2, IN),
               Finalising(map[1 := publish]).(status := Completed));
  }

  lemma {:induction false} WorkerDrops()
    ensures Run(EXAMPLE, Finalising(map[1 := Publish(Worker(Finalizing), OBJECT)]).(status := Completed),
            [Do(1, IN), Do(1, IN), Cancel(1)])
         == State(Completed, EXAMPLE.key, map[], map[])
  {
    RunOfThree(Finalising(map[1 := Publish(Worker(Finalizing), OBJECT)]).(status := Completed), Do(1, IN), Do(1, IN),
      Cancel(1),
               State(Completed, EXAMPLE.key, map[], map[]));
  }

  /** Overlap loses data: this run leaves a COMPLETED session whose object has been deleted. */
  lemma {:induction false} OverlapCanLoseTheObject()
    ensures Run(EXAMPLE, Start(EXAMPLE), LOST_UPDATE) == State(Completed, EXAMPLE.key, map[], map[])
  {
    var part1, part2 := [StartComplete(0), Do(0, IN), Cancel(0)], [StartClaim(1), Do(1, IN), StartComplete(2)];
    var part3, part4 := [Do(2, IN), Do(2, IN), Do(2, IN)], [Do(1, IN), Do(1, IN), Cancel(1)];
    InterruptedRequest();
    WorkerInspects();
    RequestCompletes(Publish(Worker(Finalizing), OBJECT));
    WorkerDrops();
    RunSplit(EXAMPLE, Start(EXAMPLE), part1, part2 + (part3 + part4));
    RunSplit(EXAMPLE, Finalising(map[]), part2, part3 + part4);
    RunSplit(EXAMPLE, Finalising(map[1 := Publish(Worker(Finalizing), OBJECT), 2 := Assemble]), part3, part4);
    assert LOST_UPDATE == part1 + (part2 + (part3 + part4));
  }

  // Two completion requests race. The first has inspected the object when the second completes,
  // and then finds its owner's authorisation revoked.
  const REVOKED_REQUEST :=
    [StartComplete(1), Do(1, IN), Do(1, IN),
     StartComplete(2),
     Do(2, IN), Do(2, IN), Do(2, IN),
     Do(1, REVOKED), Do(1, REVOKED), Cancel(1)]

  lemma {:induction false} RequestInspects()
    ensures Run(EXAMPLE, Start(EXAMPLE), [StartComplete(1), Do(1, IN), Do(1, IN)])
            == Finalising(map[1 := Publish(Request, OBJECT)])
  {
    RunOfThree(Start(EXAMPLE), StartComplete(1), Do(1, IN), Do(1, IN), Finalising(map[1 := Publish(Request, OBJECT)]));
  }

  lemma {:induction false} RequestDrops()
    ensures Run(EXAMPLE, Finalising(map[1 := Publish(Request, OBJECT)]).(status := Completed),
            [Do(1, REVOKED), Do(1, REVOKED), Cancel(1)])
         == State(Completed, EXAMPLE.key, map[], map[])
  {
    RunOfThree(Finalising(map[1 := Publish(Request, OBJECT)]).(status := Completed), Do(1, REVOKED), Do(1, REVOKED),
      Cancel(1),
               State(Completed, EXAMPLE.key, map[], map[]));
  }

  lemma SecondRequestStarts(publish: Program)
    ensures Apply(EXAMPLE, Finalising(map[1 := publish]), StartComplete(2))
            == Finalising(map[1 := publish, 2 := Assemble])
  {
  }

  lemma {:induction false} RaceEnds(part3: seq<Step>, part4: seq<Step>)
    requires part3 == [Do(2, IN), Do(2, IN), Do(2, IN)] && part4 == [Do(1, REVOKED), Do(1, REVOKED), Cancel(1)]
    ensures Run(EXAMPLE, Finalising(map[1 := Publish(Request, OBJECT), 2 := Assemble]), part3 + part4)
         == State(Completed, EXAMPLE.key, map[], map[])
  {
    RequestCompletes(Publish(Request, OBJECT));
    RequestDrops();
    RunSplit(EXAMPLE, Finalising(map[1 := Publish(Request, OBJECT), 2 := Assemble]), part3, part4);
  }

  /** A request can lose the object of a completed upload as well. */
  lemma {:induction false} RevokedRequestLosesTheObject()
    ensures Run(EXAMPLE, Start(EXAMPLE), REVOKED_REQUEST) == State(Completed, EXAMPLE.key, map[], map[])
  {
    var part1 := [StartComplete(1), Do(1, IN), Do(1, IN)];
    var part3, part4 := [Do(2, IN), Do(2, IN), Do(2, IN)], [Do(1, REVOKED), Do(1, REVOKED), Cancel(1)];
    assert REVOKED_REQUEST == part1 + ([StartComplete(2)] + (part3 + part4));
    RunSplit(EXAMPLE, Start(EXAMPLE), part1, [StartComplete(2)] + (part3 + part4));
    RequestInspects();
    RunCons(EXAMPLE, Finalising(map[1 := Publish(Request, OBJECT)]), StartComplete(2), part3 + part4);
    SecondRequestStarts(Publish(Request, OBJECT));
    RaceEnds(part3, part4);
  }

  // A request has inspected the object, and so has a worker that claimed the session. The request
  // finds its owner's authorisation revoked and deletes the object; then the worker completes.
  const DROPPED_BEFORE :=
    [StartComplete(1), Do(1, IN), Do(1, IN),
     StartClaim(2), Do(2, IN), Do(1, REVOKED),
     Do(1, REVOKED), Do(2, IN), Cancel(2)]

  lemma {:induction false} WorkerInspectsToo()
    ensures Run(EXAMPLE, Finalising(map[1 := Publish(Request, OBJECT)]), [StartClaim(2), Do(2, IN), Do(1, REVOKED)])
         == Finalising(map[1 := DropPublished(End), 2 := Publish(Worker(Finalizing), OBJECT)])
  {
    RunOfThree(Finalising(map[1 := Publish(Request, OBJECT)]), StartClaim(2), Do(2, IN), Do(1, REVOKED),
               Finalising(map[1 := DropPublished(End), 2 := Publish(Worker(Finalizing), OBJECT)]));
  }

  lemma {:induction false} WorkerCompletesNothing()
    ensures Run(EXAMPLE, Finalising(map[1 := DropPublished(End), 2 := Publish(Worker(Finalizing), OBJECT)]),
                [Do(1, REVOKED), Do(2, IN), Cancel(2)])
         == State(Completed, EXAMPLE.key, map[], map[])
  {
    RunOfThree(Finalising(map[1 := DropPublished(End), 2 := Publish(Worker(Finalizing), OBJECT)]),
               Do(1, REVOKED), Do(2, IN), Cancel(2), State(Completed, EXAMPLE.key, map[], map[]));
  }

  /** An upload can also be completed after its object has been deleted. */
  lemma {:induction false} CompletesWithoutObject()
    ensures Run(EXAMPLE, Start(EXAMPLE), DROPPED_BEFORE) == State(Completed, EXAMPLE.key, map[], map[])
  {
    var part1, part2 := [StartComplete(1), Do(1, IN), Do(1, IN)], [StartClaim(2), Do(2, IN), Do(1, REVOKED)];
    var part3 := [Do(1, REVOKED), Do(2, IN), Cancel(2)];
    assert DROPPED_BEFORE == part1 + (part2 + part3);
    RunSplit(EXAMPLE, Start(EXAMPLE), part1, part2 + part3);
    RequestInspects();
    RunSplit(EXAMPLE, Finalising(map[1 := Publish(Request, OBJECT)]), part2, part3);
    WorkerInspectsToo();
    WorkerCompletesNothing();
  }

  const SINGLE := Plan(Single, "staging/users/1/file.pdf", 10, Undeclared)
  const FINAL := "objects/users/1/file.pdf"

  // Two authorised completion requests of a single upload overlap. The first has found the staged
  // object when the second promotes it, seals the staging key and completes; then the first
  // promotes what the seal left.
  const PROMOTED_TWICE :=
    [ClientPut(OBJECT), StartComplete(1), Do(1, IN), Do(1, IN)]
    + ([StartComplete(2), Do(2, IN), Do(2, IN), Do(2, IN)] + ([Do(2, IN), Do(2, IN), Do(2, IN)] + [Do(1, IN)]))

  function Staged(store: map<string, Stored>, programs: map<Actor, Program>): State {
    State(Finalizing, SINGLE.key, store, programs)
  }

  lemma FinalKeyOfSingle()
    ensures PublishedKey(SINGLE) == FINAL && FINAL != SINGLE.key
  {
    assert STAGING <= SINGLE.key && SINGLE.key[|STAGING|..] == "users/1/file.pdf";
    assert "objects/" + "users/1/file.pdf" == FINAL;
    assert FINAL[0] != SINGLE.key[0];
  }

  lemma {:induction false} UnrollFour(plan: Plan, s: State, a: Step, b: Step, c: Step, d: Step)
    ensures Run(plan, s, [a, b, c, d]) == Apply(plan, Apply(plan, Apply(plan, Apply(plan, s, a), b), c), d)
  {
    assert [a, b, c, d] == [a] + [b, c, d];
    RunCons(plan, s, a, [b, c, d]);
    Unroll3(plan, Apply(plan, s, a), b, c, d);
  }

  lemma {:induction false} FirstFindsStaged()
    ensures Run(SINGLE, Start(SINGLE), [ClientPut(OBJECT), StartComplete(1), Do(1, IN), Do(1, IN)])
         == Staged(map[SINGLE.key := OBJECT], map[1 := CopyStaging(Request)])
  {
    FinalKeyOfSingle();
    UnrollFour(SINGLE, Start(SINGLE), ClientPut(OBJECT), StartComplete(1), Do(1, IN), Do(1, IN));
  }

  lemma {:induction false} SecondPromotes()
    ensures Run(SINGLE, Staged(map[SINGLE.key := OBJECT], map[1 := CopyStaging(Request)]),
                [StartComplete(2), Do(2, IN), Do(2, IN), Do(2, IN)])
         == Staged(map[SINGLE.key := OBJECT, FINAL := OBJECT], map[1 := CopyStaging(Request), 2 := HeadCopied(Request)])
  {
    FinalKeyOfSingle();
    UnrollFour(SINGLE, Staged(map[SINGLE.key := OBJECT], map[1 := CopyStaging(Request)]),
               StartComplete(2), Do(2, IN), Do(2, IN), Do(2, IN));
  }

  lemma {:induction false} SecondCompletes()
    ensures Run(SINGLE,
            Staged(map[SINGLE.key := OBJECT, FINAL := OBJECT],
            map[1 := CopyStaging(Request), 2 := HeadCopied(Request)]),
                [Do(2, IN), Do(2, IN), Do(2, IN)])
         == State(Completed, FINAL, map[SINGLE.key := TOMBSTONE, FINAL := OBJECT], map[1 := CopyStaging(Request)])
  {
    FinalKeyOfSingle();
    Unroll3(SINGLE,
      Staged(map[SINGLE.key := OBJECT, FINAL := OBJECT], map[1 := CopyStaging(Request), 2 := HeadCopied(Request)]),
            Do(2, IN), Do(2, IN), Do(2, IN));
  }

  /** Two authorised requests alone can replace the object of a completed upload by the seal of its staging key. */
  lemma {:induction false} SealCanReplaceTheObject()
    ensures var end := Run(SINGLE, Start(SINGLE), PROMOTED_TWICE);
            end.status == Completed && end.fileKey == FINAL
              && end.store == map[SINGLE.key := TOMBSTONE, FINAL := TOMBSTONE]
  {
    FinalKeyOfSingle();
    var first := [ClientPut(OBJECT), StartComplete(1), Do(1, IN), Do(1, IN)];
    var second, third, last := [StartComplete(2), Do(2, IN), Do(2, IN), Do(2, IN)], [Do(2, IN), Do(2, IN), Do(2, IN)],
      [Do(1, IN)];
    var s1 := Staged(map[SINGLE.key := OBJECT], map[1 := CopyStaging(Request)]);
    var s2 := Staged(map[SINGLE.key := OBJECT, FINAL := OBJECT],
      map[1 := CopyStaging(Request), 2 := HeadCopied(Request)]);
    var s3 := State(Completed, FINAL, map[SINGLE.key := TOMBSTONE, FINAL := OBJECT], map[1 := CopyStaging(Request)]);
    FirstFindsStaged();
    SecondPromotes();
    SecondCompletes();
    RunSplit(SINGLE, Start(SINGLE), first, second + (third + last));
    RunSplit(SINGLE, s1, second, third + last);
    RunSplit(SINGLE, s2, third, last);
    RunCons(SINGLE, s3, Do(1, IN), []);
    assert last == [Do(1, IN)] + [];
  }
}
