/**
  What one worker pass, completion request or abort request does to an upload when nothing
  disturbs it (app/maintenance.py, app/api/v1/routes/files.py), by what it finds in storage.
 */
module PublicationPasses {
  import opened Common
  import opened UploadRows
  import opened Publication

  // The actor goes on by itself until its program ends, for at most n steps.
  function Alone(plan: Plan, s: State, a: Actor, input: Input, n: nat): State
    decreases n
  {
    if n == 0 || a !in s.programs then s else Alone(plan, Next(plan, s, Do(a, input)), a, input, n - 1)
  }

  function Steps(a: Actor, input: Input, n: nat): seq<Step> { seq(n, _ => Do(a, input)) }

  lemma {:induction false} AloneIsRun(plan: Plan, s: State, a: Actor, input: Input, n: nat)
    ensures Alone(plan, s, a, input, n) == Run(plan, s, Steps(a, input, n))
    decreases n
  {
    if n > 0 {
      assert Steps(a, input, n)[1..] == Steps(a, input, n - 1);
      AloneIsRun(plan, Apply(plan, s, Do(a, input)), a, input, n - 1);
    }
  }

  // No program has more steps.
  const ENOUGH := 9

  function Pass(plan: Plan, s: State, start: Step, a: Actor, input: Input): State {
    Alone(plan, Apply(plan, s, start), a, input, ENOUGH)
  }

  // ---- storage ----

  // The object to be judged: the published one, or else the staged one.
  function Found(plan: Plan, store: map<string, Stored>): Option<Stored> {
    if PublishedKey(plan) in store then Some(store[PublishedKey(plan)])
    else if plan.mode == Single && plan.key in store then Some(store[plan.key])
    else None
  }

  function Sealed(plan: Plan, store: map<string, Stored>): map<string, Stored> {
    if plan.mode == Single then store[plan.key := Stored(0, None)] else store
  }

  // The staged object is published and its key sealed; a published object stays where it is.
  function Promoted(plan: Plan, store: map<string, Stored>, item: Stored): map<string, Stored> {
    if PublishedKey(plan) in store then store
    else store[PublishedKey(plan) := item][plan.key := Stored(0, None)]
  }

  function Dropped(plan: Plan, store: map<string, Stored>): map<string, Stored> {
    Sealed(plan, store - {PublishedKey(plan)})
  }

  // ---- the ends of the programs ----

  function Ended(s: State, a: Actor, status: SessionStatus, store: map<string, Stored>): State {
    State(status, s.fileKey, store, s.programs - {a})
  }

  lemma {:induction false} EndClaims(plan: Plan, s: State, a: Actor, input: Input, n: nat)
    requires a in s.programs && s.programs[a].EndClaim? && n >= 1 && s.status != Completed
    ensures var p := s.programs[a];
            Alone(plan, s, a, input, n)
            == Ended(s, a,
                     if p.original == Aborted || s.status == Aborted then Aborted
                     else if p.original == Finalizing && p.rejected then Failed else Expired, s.store)
  {
  }

  lemma {:induction false} Abandons(plan: Plan, s: State, a: Actor, input: Input, n: nat)
    requires a in s.programs && s.programs[a].Abandon? && n >= 2 && s.status != Completed
    ensures var p := s.programs[a];
            Alone(plan, s, a, input, n)
            == Ended(s, a,
                     if p.original == Aborted || s.status == Aborted then Aborted
                     else if p.original == Finalizing && p.rejected then Failed else Expired, Sealed(plan, s.store))
  {
    var next := Next(plan, s, Do(a, input));
    EndClaims(plan, next, a, input, n - 1);
    assert next.programs - {a} == s.programs - {a};
  }

  lemma {:induction false} Records(plan: Plan, s: State, a: Actor, input: Input, n: nat)
    requires a in s.programs && s.programs[a] == Record && n >= 1 && s.status == Finalizing
    ensures Alone(plan, s, a, input, n) == Ended(s, a, Failed, s.store)
  {
  }

  lemma {:induction false} Drops(plan: Plan, s: State, a: Actor, input: Input, n: nat)
    requires a in s.programs && s.programs[a].DropPublished? && n >= 2
    ensures var dropped := s.(store := Dropped(plan, s.store));
            Alone(plan, s, a, input, n)
            == Alone(plan, Continue(dropped, a, s.programs[a].tail), a, input,
                     n - if plan.mode == Single then 2 else 1)
  {
    var next := Next(plan, s, Do(a, input));
    if plan.mode == Single {
      var last := Next(plan, next, Do(a, input));
      assert last == Continue(next.(store := Dropped(plan, s.store)), a, s.programs[a].tail);
      ContinueForgets(s.(store := Dropped(plan, s.store)), next.(store := Dropped(plan, s.store)), a,
                      s.programs[a].tail);
    }
  }

  lemma {:induction false} ContinueForgets(s: State, t: State, a: Actor, tail: Tail)
    requires s.status == t.status && s.fileKey == t.fileKey && s.store == t.store
    requires s.programs - {a} == t.programs - {a}
    ensures Continue(s, a, tail) == Continue(t, a, tail)
  {
    match tail
    case End =>
    case RecordRejection => OverwriteForgets(s.programs, t.programs, a, Record);
    case AbandonRejected(original) => OverwriteForgets(s.programs, t.programs, a, Abandon(original, true));
  }

  lemma {:induction false} OverwriteForgets(m: map<Actor, Program>, n: map<Actor, Program>, a: Actor, p: Program)
    requires m - {a} == n - {a}
    ensures m[a := p] == n[a := p]
  {
    var x, y := m - {a}, n - {a};
    assert m[a := p] == x[a := p] && n[a := p] == y[a := p];
  }

  lemma {:induction false} AloneSteps(plan: Plan, s: State, a: Actor, input: Input, n: nat)
    requires a in s.programs && n >= 1
    ensures Alone(plan, s, a, input, n) == Alone(plan, Next(plan, s, Do(a, input)), a, input, n - 1)
  {
  }

  lemma {:induction false} RejectedByWorker(plan: Plan, s: State, a: Actor, input: Input, n: nat)
    requires a in s.programs && s.programs[a] == DropPublished(AbandonRejected(Finalizing))
    requires n >= 4 && s.status == Finalizing
    ensures Alone(plan, s, a, input, n) == Ended(s, a, Failed, Dropped(plan, s.store))
  {
    Drops(plan, s, a, input, n);
    var next := Continue(s.(store := Dropped(plan, s.store)), a, AbandonRejected(Finalizing));
    Abandons(plan, next, a, input, n - if plan.mode == Single then 2 else 1);
    assert next.programs - {a} == s.programs - {a};
    assert Sealed(plan, Dropped(plan, s.store)) == Dropped(plan, s.store);
  }

  lemma {:induction false} RejectedByRequest(plan: Plan, s: State, a: Actor, input: Input, n: nat)
    requires a in s.programs && s.programs[a] == DropPublished(RecordRejection) && n >= 3 && s.status == Finalizing
    ensures Alone(plan, s, a, input, n) == Ended(s, a, Failed, Dropped(plan, s.store))
  {
    Drops(plan, s, a, input, n);
    var next := Continue(s.(store := Dropped(plan, s.store)), a, RecordRejection);
    Records(plan, next, a, input, n - if plan.mode == Single then 2 else 1);
    assert next.programs - {a} == s.programs - {a};
  }

  // ---- judging an object ----

  // Who judges: a worker with a FINALIZING claim or an authorised request.
  predicate Judge(role: Role, input: Input) { role == Worker(Finalizing) || (role == Request && input.authorised) }

  // What becomes of the row and of the published object.
  function Judged(plan: Plan, s: State, a: Actor, item: Stored): State {
    if Matches(item, plan)
    then State(Completed, PublishedKey(plan), s.store, s.programs - {a})
    else Ended(s, a, Failed, Dropped(plan, s.store))
  }

  lemma {:induction false} Judges(plan: Plan, s: State, a: Actor, input: Input, n: nat, role: Role, item: Stored)
    requires a in s.programs && s.programs[a] == Decide(plan, role, item) && Judge(role, input)
    requires n >= 4 && s.status == Finalizing
    ensures Alone(plan, s, a, input, n) == Judged(plan, s, a, item)
  {
    TestsAreComplementary(item, plan);
    if !Matches(item, plan) {
      if role == Request {
        RejectedByRequest(plan, s, a, input, n);
      } else {
        RejectedByWorker(plan, s, a, input, n);
      }
    }
  }

  lemma {:induction false} JudgesPublished(plan: Plan, s: State, a: Actor, input: Input, n: nat, role: Role)
    requires a in s.programs && s.programs[a] == HeadPublished(role) && Judge(role, input)
    requires n >= 5 && s.status == Finalizing && PublishedKey(plan) in s.store
    ensures Alone(plan, s, a, input, n) == Judged(plan, s, a, s.store[PublishedKey(plan)])
  {
    var next := Next(plan, s, Do(a, input));
    Judges(plan, next, a, input, n - 1, role, s.store[PublishedKey(plan)]);
    assert next.programs - {a} == s.programs - {a};
  }

  // From the copy on: the object is published, its staging key sealed, and then it is judged.
  lemma {:induction false} Copies(plan: Plan, s: State, a: Actor, input: Input, n: nat, role: Role)
    requires plan.Valid() && plan.mode == Single && plan.key in s.store
    requires a in s.programs && s.programs[a] == CopyStaging(role) && Judge(role, input)
    requires n >= 7 && s.status == Finalizing
    ensures var store := s.store[PublishedKey(plan) := s.store[plan.key]][plan.key := Stored(0, None)];
            Alone(plan, s, a, input, n) == Judged(plan, s.(store := store), a, s.store[plan.key])
  {
    KeysDiffer(plan);
    var item := s.store[plan.key];
    var copied := Next(plan, s, Do(a, input));
    var checked := Next(plan, copied, Do(a, input));
    assert checked.programs[a] == SealStaging(role, item);
    var sealed := Next(plan, checked, Do(a, input));
    assert sealed.programs[a] == Decide(plan, role, item);
    AloneSteps(plan, s, a, input, n);
    AloneSteps(plan, copied, a, input, n - 1);
    AloneSteps(plan, checked, a, input, n - 2);
    Judges(plan, sealed, a, input, n - 3, role, item);
    assert sealed.programs - {a} == s.programs - {a};
  }

  // ---- whole passes ----

  predicate Idle(s: State, a: Actor) { a !in s.programs }

  // How a FINALIZING upload ends, by the object that was found.
  predicate EndsBy(plan: Plan, s: State, end: State, item: Stored) {
    && (Matches(item, plan) ==>
          end.status == Completed && end.fileKey == PublishedKey(plan) && end.store == Promoted(plan, s.store, item)
          && PublishedKey(plan) in end.store && end.store[PublishedKey(plan)] == item)
    && (!Matches(item, plan) ==>
          end.status == Failed && end.fileKey == s.fileKey && end.store == Dropped(plan, s.store))
    && end.programs == s.programs
  }

  lemma {:induction false} PromotedOrDropped(plan: Plan, s: State)
    requires plan.Valid() && plan.mode == Single && plan.key in s.store && PublishedKey(plan) !in s.store
    ensures var store := s.store[PublishedKey(plan) := s.store[plan.key]][plan.key := Stored(0, None)];
            && store == Promoted(plan, s.store, s.store[plan.key])
            && PublishedKey(plan) in store && store[PublishedKey(plan)] == s.store[plan.key]
            && Dropped(plan, store) == Dropped(plan, s.store)
  {
    KeysDiffer(plan);
  }

  // From the first inspection on, when there is an object to judge.
  lemma {:induction false} InspectsAndJudges(
    plan: Plan, s: State, t: State, a: Actor, input: Input, n: nat, role: Role, item: Stored)
    requires plan.Valid() && Idle(s, a) && t == Become(s.(status := Finalizing), a, HeadPublished(role))
    requires n >= 9 && Judge(role, input) && Found(plan, s.store) == Some(item)
    ensures EndsBy(plan, s, Alone(plan, t, a, input, n), item)
  {
    assert t.programs - {a} == s.programs;
    if PublishedKey(plan) in s.store {
      JudgesPublished(plan, t, a, input, n, role);
    } else {
      StagedIsJudged(plan, t, a, input, n, role);
      PromotedOrDropped(plan, t);
    }
  }

  // A worker drops a staged object that does not match without copying it first.
  lemma {:induction false} StagedIsJudged(plan: Plan, t: State, a: Actor, input: Input, n: nat, role: Role)
    requires plan.Valid() && plan.mode == Single && plan.key in t.store && PublishedKey(plan) !in t.store
    requires a in t.programs && t.programs[a] == HeadPublished(role) && Judge(role, input)
    requires n >= 9 && t.status == Finalizing
    ensures var item, end := t.store[plan.key], Alone(plan, t, a, input, n);
            var store := t.store[PublishedKey(plan) := item][plan.key := Stored(0, None)];
            end == if Matches(item, plan) then State(Completed, PublishedKey(plan), store, t.programs - {a})
                   else Ended(t, a, Failed, Dropped(plan, t.store))
  {
    var item := t.store[plan.key];
    var looked := Next(plan, t, Do(a, input));
    var next := Next(plan, looked, Do(a, input));
    assert Alone(plan, t, a, input, n) == Alone(plan, next, a, input, n - 2);
    assert next.programs - {a} == t.programs - {a};
    TestsAreComplementary(item, plan);
    if role == Worker(Finalizing) && !Matches(item, plan) {
      Judges(plan, next, a, input, n - 2, role, item);
    } else {
      Copies(plan, next, a, input, n - 2, role);
      PromotedOrDropped(plan, t);
    }
  }

  /** A worker's pass over a FINALIZING upload. */
  lemma {:induction false} WorkerPass(plan: Plan, s: State, a: Actor, input: Input)
    requires plan.Valid() && s.status == Finalizing && Idle(s, a)
    ensures var end := Pass(plan, s, StartClaim(a), a, input);
            match Found(plan, s.store)
            case Some(item) => EndsBy(plan, s, end, item)
            case None => end == s.(status := Expired, store := Sealed(plan, s.store))
  {
    var t := Apply(plan, s, StartClaim(a));
    match Found(plan, s.store)
    case Some(item) => InspectsAndJudges(plan, s, t, a, input, ENOUGH, Worker(Finalizing), item);
    case None => NothingFound(plan, s, t, a, input);
  }

  lemma {:induction false} NothingFound(plan: Plan, s: State, t: State, a: Actor, input: Input)
    requires s.status == Finalizing && Idle(s, a) && Found(plan, s.store).None?
    requires t == Become(s, a, HeadPublished(Worker(Finalizing)))
    ensures Alone(plan, t, a, input, ENOUGH) == s.(status := Expired, store := Sealed(plan, s.store))
  {
    var next := Next(plan, t, Do(a, input));
    assert t.programs - {a} == s.programs;
    if plan.mode == Single {
      var last := Next(plan, next, Do(a, input));
      assert last.programs[a] == Abandon(Finalizing, false) && last.programs - {a} == s.programs;
      Abandons(plan, last, a, input, ENOUGH - 2);
    } else {
      assert next.programs[a] == Abandon(Finalizing, false) && next.programs - {a} == s.programs;
      Abandons(plan, next, a, input, ENOUGH - 1);
    }
  }

  /** A worker's pass over any other upload seals the staging key and expires the session, unless it was aborted. */
  lemma {:induction false} ExpiryPass(plan: Plan, s: State, a: Actor, input: Input)
    requires s.status in {Initiated, Aborted, Expired} && Idle(s, a)
    ensures Pass(plan, s, StartClaim(a), a, input)
            == s.(status := if s.status == Aborted then Aborted else Expired, store := Sealed(plan, s.store))
  {
    var t := Apply(plan, s, StartClaim(a));
    assert t.programs - {a} == s.programs;
    Abandons(plan, t, a, input, ENOUGH);
  }

  /** An authorised completion request. A multipart upload is assembled first; a missing object changes nothing. */
  lemma {:induction false} RequestPass(plan: Plan, s: State, a: Actor, input: Input)
    requires plan.Valid() && plan.declared != Malformed && s.status in {Initiated, Finalizing} && Idle(s, a)
    requires input.authorised
    ensures var end := Pass(plan, s, StartComplete(a), a, input);
            && (plan.mode == Multipart ==>
                  EndsBy(plan, s.(store := s.store[plan.key := input.assembled]), end, input.assembled))
            && (plan.mode == Single ==>
                  match Found(plan, s.store)
                  case Some(item) => EndsBy(plan, s, end, item)
                  case None => end == s.(status := Finalizing))
  {
    var t := Apply(plan, s, StartComplete(a));
    if plan.mode == Multipart {
      AssembledPass(plan, s, t, a, input);
    } else if Found(plan, s.store).Some? {
      InspectsAndJudges(plan, s, t, a, input, ENOUGH, Request, Found(plan, s.store).value);
    } else {
      RequestFindsNothing(plan, s, t, a, input);
    }
  }

  lemma {:induction false} RequestFindsNothing(plan: Plan, s: State, t: State, a: Actor, input: Input)
    requires plan.mode == Single && Idle(s, a) && Found(plan, s.store).None?
    requires t == Become(s.(status := Finalizing), a, HeadPublished(Request))
    ensures Alone(plan, t, a, input, ENOUGH) == s.(status := Finalizing)
  {
    var next := Next(plan, t, Do(a, input));
    assert next.programs[a] == HeadStaging(Request);
    var last := Next(plan, next, Do(a, input));
    AloneSteps(plan, t, a, input, ENOUGH);
    AloneSteps(plan, next, a, input, ENOUGH - 1);
    assert last.programs == s.programs;
  }

  lemma {:induction false} AssembledPass(plan: Plan, s: State, t: State, a: Actor, input: Input)
    requires plan.mode == Multipart && input.authorised && Idle(s, a)
    requires t == Become(s.(status := Finalizing), a, Assemble)
    ensures EndsBy(plan, s.(store := s.store[plan.key := input.assembled]),
                   Alone(plan, t, a, input, ENOUGH), input.assembled)
  {
    var next := Next(plan, t, Do(a, input));
    assert next.programs - {a} == s.programs;
    JudgesPublished(plan, next, a, input, ENOUGH - 1, Request);
  }

  /** An owner who lost the right to publish leaves the session FINALIZING and the matching object dropped. */
  lemma {:induction false} UnauthorisedPass(plan: Plan, s: State, a: Actor, input: Input)
    requires s.status == Finalizing && Idle(s, a) && !input.authorised
    requires PublishedKey(plan) in s.store && Matches(s.store[PublishedKey(plan)], plan) && plan.mode == Single
    ensures Pass(plan, s, StartComplete(a), a, input) == s.(store := Dropped(plan, s.store))
  {
    TestsAreComplementary(s.store[PublishedKey(plan)], plan);
    var t := Apply(plan, s, StartComplete(a));
    var judged := Next(plan, t, Do(a, input));
    var refused := Next(plan, judged, Do(a, input));
    assert refused.programs[a] == DropPublished(End);
    AloneSteps(plan, t, a, input, ENOUGH);
    AloneSteps(plan, judged, a, input, ENOUGH - 1);
    Drops(plan, refused, a, input, ENOUGH - 2);
    assert refused.programs - {a} == s.programs;
  }

  /** An abort seals the staging key. */
  lemma {:induction false} AbortPass(plan: Plan, s: State, a: Actor, input: Input)
    requires s.status !in {Completed, Expired} && Idle(s, a)
    ensures Pass(plan, s, StartAbort(a), a, input) == s.(status := Aborted, store := Sealed(plan, s.store))
  {
    var t := Apply(plan, s, StartAbort(a));
    var last := Next(plan, t, Do(a, input));
    AloneSteps(plan, t, a, input, ENOUGH);
    assert last.programs == s.programs;
  }

  /** The published key of a single upload: under objects/ instead of staging/. */
  lemma {:induction false} PublishedKeyIs(plan: Plan, rest: string)
    ensures plan.mode == Single && plan.key == "staging/" + rest ==> PublishedKey(plan) == "objects/" + rest
    ensures plan.mode == Multipart ==> PublishedKey(plan) == plan.key
  {
    if plan.key == "staging/" + rest {
      assert STAGING <= plan.key && plan.key[|STAGING|..] == rest;
    }
  }
}
