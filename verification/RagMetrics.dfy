/**
  The retrieval quality metrics of scripts/rag_retrieval_evaluation.py.

  Floats are modelled by reals. The discount 1 / log2(rank + 1) is a parameter of which only
  positivity and strict decrease are used.
 */
module RagMetrics {
  import opened Common
  import opened Sequences

  type Discount = nat -> real

  ghost predicate IsDiscount(w: Discount) {
    forall i: nat, j: nat :: i < j ==> 0.0 < w(j) < w(i)
  }

  // ---- discounted gain ----

  // The gain of a ranking whose first element has the given rank.
  function Gain(w: Discount, relevant: set<string>, ranked: seq<string>, rank: nat): real {
    if ranked == [] then 0.0
    else (if ranked[0] in relevant then w(rank) else 0.0) + Gain(w, relevant, ranked[1..], rank + 1)
  }

  function Best(w: Discount, rank: nat, n: nat): real
    decreases n
  {
    if n == 0 then 0.0 else w(rank) + Best(w, rank + 1, n - 1)
  }

  function Hits(relevant: set<string>, ranked: seq<string>): nat {
    if ranked == [] then 0 else (if ranked[0] in relevant then 1 else 0) + Hits(relevant, ranked[1..])
  }

  function Min(a: nat, b: nat): nat { if a < b then a else b }

  function Top(ranked: seq<string>, k: nat): seq<string> { ranked[..Min(|ranked|, k)] }

  function Dcg(w: Discount, relevant: set<string>, ranked: seq<string>, k: nat): real {
    Gain(w, relevant, Top(ranked, k), 1)
  }

  predicate AllRelevant(relevant: set<string>, ranked: seq<string>, n: nat) {
    n <= |ranked| && forall i :: 0 <= i < n ==> ranked[i] in relevant
  }

  lemma {:induction false} BestGrows(w: Discount, rank: nat, m: nat, n: nat)
    requires IsDiscount(w) && m <= n
    ensures 0.0 <= Best(w, rank, m) <= Best(w, rank, n)
    ensures m < n ==> Best(w, rank, m) < Best(w, rank, n)
    decreases n
  {
    if n > 0 {
      assert 0.0 < w(rank + 1) < w(rank);
      BestGrows(w, rank + 1, if m == 0 then 0 else m - 1, n - 1);
    }
  }

  lemma {:induction false} LaterIsWorse(w: Discount, rank: nat, n: nat)
    requires IsDiscount(w)
    ensures n > 0 ==> Best(w, rank + 1, n) < Best(w, rank, n)
    ensures n == 0 ==> Best(w, rank + 1, n) == Best(w, rank, n)
    decreases n
  {
    if n > 0 {
      LaterIsWorse(w, rank + 1, n - 1);
    }
  }

  /** A ranking with h hits gains at most what h hits in front would, and only those gain it all. */
  lemma {:induction false} GainIsAtMostBest(w: Discount, relevant: set<string>, ranked: seq<string>, rank: nat)
    requires IsDiscount(w)
    ensures 0.0 <= Gain(w, relevant, ranked, rank) <= Best(w, rank, Hits(relevant, ranked))
    ensures Gain(w, relevant, ranked, rank) == Best(w, rank, Hits(relevant, ranked))
            <==> AllRelevant(relevant, ranked, Hits(relevant, ranked))
    decreases |ranked|
  {
    if ranked != [] {
      var rest, h := ranked[1..], Hits(relevant, ranked[1..]);
      assert 0.0 < w(rank + 1) < w(rank);
      GainIsAtMostBest(w, relevant, rest, rank + 1);
      HitsFit(relevant, rest);
      if ranked[0] in relevant {
        assert forall i :: 0 <= i < |rest| ==> rest[i] == ranked[i + 1];
        if AllRelevant(relevant, rest, h) {
          assert forall i :: 0 <= i < h + 1 ==> i == 0 || ranked[i] == rest[i - 1];
        }
      } else {
        LaterIsWorse(w, rank, h);
      }
    }
  }

  lemma {:induction false} HitsFit(relevant: set<string>, ranked: seq<string>)
    ensures Hits(relevant, ranked) <= |ranked|
  {
    if ranked != [] {
      HitsFit(relevant, ranked[1..]);
    }
  }

  /** Without repetitions, hits are the relevant entries found. */
  lemma {:induction false} HitsAreDistinct(relevant: set<string>, ranked: seq<string>)
    requires NoDuplicates(ranked)
    ensures Hits(relevant, ranked) == |relevant * Elements(ranked)| <= |relevant|
  {
    if ranked == [] {
      assert relevant * Elements(ranked) == {};
    } else {
      var rest := ranked[1..];
      assert forall i :: 0 <= i < |rest| ==> rest[i] == ranked[i + 1];
      HitsAreDistinct(relevant, rest);
      assert Elements(ranked) == {ranked[0]} + Elements(rest);
      assert ranked[0] !in Elements(rest);
      if ranked[0] in relevant {
        assert relevant * Elements(ranked) == (relevant * Elements(rest)) + {ranked[0]};
      } else {
        assert relevant * Elements(ranked) == relevant * Elements(rest);
      }
    }
    SubsetSize(relevant * Elements(ranked), relevant);
  }

  lemma {:induction false} SubsetSize<T>(a: set<T>, b: set<T>)
    requires a <= b
    ensures |a| <= |b|
  {
    if a != {} {
      var x :| x in a;
      SubsetSize(a - {x}, b - {x});
    }
  }

  lemma {:induction false} AllRelevantHits(relevant: set<string>, ranked: seq<string>, n: nat)
    requires AllRelevant(relevant, ranked, n)
    ensures n <= Hits(relevant, ranked)
  {
    if n > 0 {
      assert forall i :: 0 <= i < n - 1 ==> ranked[1..][i] == ranked[i + 1];
      AllRelevantHits(relevant, ranked[1..], n - 1);
    }
  }

  // ---- one case ----

  const CUTOFF := 5

  function Ideal(w: Discount, relevant: set<string>): real { Best(w, 1, Min(|relevant|, CUTOFF)) }

  /** nDCG@5 lies in [0, 1], and is 1 exactly when the first min(|relevant|, 5) ranks are all relevant. */
  lemma {:induction false} NdcgBounds(w: Discount, relevant: set<string>, ranked: seq<string>)
    requires IsDiscount(w) && relevant != {} && NoDuplicates(ranked)
    ensures Ideal(w, relevant) > 0.0
    ensures 0.0 <= Dcg(w, relevant, ranked, CUTOFF) / Ideal(w, relevant) <= 1.0
    ensures Dcg(w, relevant, ranked, CUTOFF) / Ideal(w, relevant) == 1.0
            <==> AllRelevant(relevant, ranked, Min(|relevant|, CUTOFF))
  {
    var top, n := Top(ranked, CUTOFF), Min(|relevant|, CUTOFF);
    var h := Hits(relevant, top);
    GainIsAtMostBest(w, relevant, top, 1);
    HitsAreDistinct(relevant, top);
    HitsFit(relevant, top);
    BestGrows(w, 1, h, n);
    BestGrows(w, 1, 0, n);
    var gain, ideal := Dcg(w, relevant, ranked, CUTOFF), Ideal(w, relevant);
    QuotientBounds(gain, ideal);
    if AllRelevant(relevant, ranked, n) {
      AllRelevantHits(relevant, top, n);
    }
  }

  lemma {:induction false} QuotientBounds(a: real, b: real)
    requires 0.0 <= a <= b && 0.0 < b
    ensures 0.0 <= a / b <= 1.0 && (a / b == 1.0 <==> a == b)
  {
    assert (a / b) * b == a;
  }

  // ---- datasets and observations ----

  datatype Kind = Answerable | NoAnswer | AclDenied

  datatype Entry = Entry(key: string, scope: string)

  datatype Case = Case(id: string, kind: Kind, scope: string, query: string, relevant: seq<string>)

  datatype Dataset = Dataset(version: string, entries: seq<Entry>, cases: seq<Case>)

  datatype Observation = Observation(caseId: string, ranked: seq<string>, concealed: bool)

  predicate Blank(s: string) { forall i :: 0 <= i < |s| ==> s[i] in {' ', '\t', '\n', '\r'} }

  predicate HasEntry(entries: seq<Entry>, key: string, scope: string) {
    exists i :: 0 <= i < |entries| && entries[i] == Entry(key, scope)
  }

  function Keys(entries: seq<Entry>): seq<string> { seq(|entries|, i requires 0 <= i < |entries| => entries[i].key) }
  function Ids(cases: seq<Case>): seq<string> { seq(|cases|, i requires 0 <= i < |cases| => cases[i].id) }
  function Queries(cases: seq<Case>): seq<string> { seq(|cases|, i requires 0 <= i < |cases| => cases[i].query) }
  function CaseIds(os: seq<Observation>): seq<string> { seq(|os|, i requires 0 <= i < |os| => os[i].caseId) }

  predicate CaseOk(d: Dataset, c: Case) {
    && !Blank(c.query)
    && (c.kind == NoAnswer <==> c.relevant == [])
    && (forall i :: 0 <= i < |c.relevant| ==> HasEntry(d.entries, c.relevant[i], c.scope))
  }

  // validate_rag_retrieval_dataset returns without raising.
  predicate DatasetOk(d: Dataset) {
    && !Blank(d.version) && d.entries != [] && d.cases != []
    && NoDuplicates(Keys(d.entries)) && NoDuplicates(Ids(d.cases)) && NoDuplicates(Queries(d.cases))
    && (set i | 0 <= i < |d.cases| :: d.cases[i].kind) == {Answerable, NoAnswer, AclDenied}
    && (forall i :: 0 <= i < |d.cases| ==> CaseOk(d, d.cases[i]))
  }

  predicate ObservationOk(d: Dataset, o: Observation) {
    && NoDuplicates(o.ranked)
    && (o.concealed ==> o.ranked == [])
    && (forall i, k :: 0 <= i < |d.cases| && d.cases[i].id == o.caseId && 0 <= k < |o.ranked| ==>
          HasEntry(d.entries, o.ranked[k], d.cases[i].scope))
  }

  predicate ObservationsOk(d: Dataset, os: seq<Observation>) {
    && NoDuplicates(CaseIds(os))
    && Elements(CaseIds(os)) == Elements(Ids(d.cases))
    && (forall i :: 0 <= i < |os| ==> ObservationOk(d, os[i]))
  }

  predicate Observed(os: seq<Observation>, id: string) { exists i :: 0 <= i < |os| && os[i].caseId == id }

  function ObservationFor(os: seq<Observation>, id: string): (o: Observation)
    requires Observed(os, id)
    ensures o in os && o.caseId == id
  {
    if os[0].caseId == id then os[0] else
      assert exists i :: 0 <= i < |os[1..]| && os[1..][i].caseId == id by {
        var i :| 0 <= i < |os| && os[i].caseId == id;
        assert os[1..][i - 1].caseId == id;
      }
      ObservationFor(os[1..], id)
  }

  function CasesOf(cases: seq<Case>, kind: Kind): (r: seq<Case>)
    ensures forall i :: 0 <= i < |r| ==> r[i] in cases && r[i].kind == kind
    ensures (exists i :: 0 <= i < |cases| && cases[i].kind == kind) ==> r != []
  {
    if cases == [] then [] else (if cases[0].kind == kind then [cases[0]] else []) + CasesOf(cases[1..], kind)
  }

  // ---- the metrics ----

  function FirstRank(relevant: set<string>, ranked: seq<string>, rank: nat): (r: Option<nat>)
    ensures r.Some? ==> r.value >= rank
  {
    if ranked == [] then None
    else if ranked[0] in relevant then Some(rank)
    else FirstRank(relevant, ranked[1..], rank + 1)
  }

  // What one answerable case contributes; a concealed observation contributes nothing.
  function Recall(c: Case, o: Observation): real
    requires c.relevant != []
  {
    if o.concealed then 0.0
    else
      assert c.relevant[0] in Elements(c.relevant);
      |Elements(c.relevant) * Elements(Top(o.ranked, CUTOFF))| as real / |Elements(c.relevant)| as real
  }

  function ReciprocalRank(c: Case, o: Observation): real {
    var first := FirstRank(Elements(c.relevant), o.ranked, 1);
    if o.concealed || first.None? then 0.0 else 1.0 / first.value as real
  }

  function Ndcg(w: Discount, c: Case, o: Observation): real
    requires IsDiscount(w) && c.relevant != [] && NoDuplicates(o.ranked)
  {
    assert c.relevant[0] in Elements(c.relevant);
    NdcgBounds(w, Elements(c.relevant), o.ranked);
    if o.concealed then 0.0 else Dcg(w, Elements(c.relevant), o.ranked, CUTOFF) / Ideal(w, Elements(c.relevant))
  }

  /** Each contribution lies in [0, 1]. */
  lemma {:induction false} ContributionBounds(w: Discount, c: Case, o: Observation)
    requires IsDiscount(w) && c.relevant != [] && NoDuplicates(o.ranked)
    ensures 0.0 <= Recall(c, o) <= 1.0
    ensures 0.0 <= ReciprocalRank(c, o) <= 1.0
    ensures 0.0 <= Ndcg(w, c, o) <= 1.0
    ensures Ndcg(w, c, o) == 1.0
            <==> !o.concealed && AllRelevant(Elements(c.relevant), o.ranked, Min(|Elements(c.relevant)|, CUTOFF))
  {
    var relevant := Elements(c.relevant);
    assert c.relevant[0] in relevant;
    NdcgBounds(w, relevant, o.ranked);
    var found := relevant * Elements(Top(o.ranked, CUTOFF));
    SubsetSize(found, relevant);
    SubsetSize({c.relevant[0]}, relevant);
    QuotientBounds(|found| as real, |relevant| as real);
    var first := FirstRank(relevant, o.ranked, 1);
    if first.Some? {
      QuotientBounds(1.0, first.value as real);
    }
  }

  datatype Metrics = Metrics(
    recall: real, reciprocalRank: real, ndcg: real, noAnswerAccuracy: real, aclLeakage: nat)

  predicate InUnit(x: real) { 0.0 <= x <= 1.0 }

  // An answerable case that the ranking answers perfectly.
  predicate Perfect(c: Case, o: Observation) {
    !o.concealed && AllRelevant(Elements(c.relevant), o.ranked, Min(|Elements(c.relevant)|, CUTOFF))
  }

  predicate AllPerfect(cases: seq<Case>, os: seq<Observation>)
    requires AllObserved(cases, os)
  {
    forall i :: 0 <= i < |cases| ==> Perfect(cases[i], ObservationFor(os, cases[i].id))
  }

  lemma {:induction false} EveryCaseIsObserved(d: Dataset, os: seq<Observation>, c: Case)
    requires ObservationsOk(d, os) && c in d.cases
    ensures Observed(os, c.id) && NoDuplicates(ObservationFor(os, c.id).ranked)
  {
    var i :| 0 <= i < |d.cases| && d.cases[i] == c;
    assert Ids(d.cases)[i] == c.id && c.id in Elements(Ids(d.cases));
    var j :| 0 <= j < |os| && CaseIds(os)[j] == c.id;
    assert os[j].caseId == c.id;
  }

  lemma {:induction false} KindsArePresent(d: Dataset, kind: Kind)
    requires DatasetOk(d)
    ensures CasesOf(d.cases, kind) != []
  {
    assert kind in (set i | 0 <= i < |d.cases| :: d.cases[i].kind);
  }

  predicate AllObserved(cases: seq<Case>, os: seq<Observation>) {
    forall i :: 0 <= i < |cases| ==> Observed(os, cases[i].id)
  }

  // The cases have proper rankings and something relevant to rank.
  predicate AllRankable(cases: seq<Case>, os: seq<Observation>)
    requires AllObserved(cases, os)
  {
    forall i :: 0 <= i < |cases| ==> NoDuplicates(ObservationFor(os, cases[i].id).ranked) && cases[i].relevant != []
  }

  lemma {:induction false} CasesAreObserved(d: Dataset, os: seq<Observation>, kind: Kind)
    requires DatasetOk(d) && ObservationsOk(d, os)
    ensures AllObserved(CasesOf(d.cases, kind), os)
    ensures kind != NoAnswer ==> AllRankable(CasesOf(d.cases, kind), os)
  {
    var cs := CasesOf(d.cases, kind);
    forall i | 0 <= i < |cs|
      ensures Observed(os, cs[i].id) && NoDuplicates(ObservationFor(os, cs[i].id).ranked)
      ensures kind != NoAnswer ==> cs[i].relevant != []
    {
      EveryCaseIsObserved(d, os, cs[i]);
    }
  }

  /**
    The evaluation either rejects its input or returns averages that all lie in [0, 1]; the
    average nDCG@5 is 1 exactly when every answerable case is answered perfectly.
   */
  method Evaluate(w: Discount, d: Dataset, os: seq<Observation>) returns (result: Option<Metrics>)
    requires IsDiscount(w)
    ensures result.Some? <==> DatasetOk(d) && ObservationsOk(d, os)
    ensures result.Some? ==>
              AllObserved(CasesOf(d.cases, Answerable), os)
              && AllObserved(CasesOf(d.cases, NoAnswer), os)
              && AllObserved(CasesOf(d.cases, AclDenied), os)
              && CasesOf(d.cases, Answerable) != [] && AllRankable(CasesOf(d.cases, Answerable), os)
              && Averages(result.value.recall, result.value.reciprocalRank, result.value.ndcg, w,
                 CasesOf(d.cases, Answerable), os)
              && Reflects(result.value, CasesOf(d.cases, Answerable), CasesOf(d.cases, NoAnswer),
                 CasesOf(d.cases, AclDenied), os)
  {
    if !DatasetOk(d) || !ObservationsOk(d, os) {
      return None;
    }
    CasesAreObserved(d, os, Answerable);
    CasesAreObserved(d, os, NoAnswer);
    CasesAreObserved(d, os, AclDenied);
    KindsArePresent(d, Answerable);
    KindsArePresent(d, NoAnswer);
    var m := Measure(w, CasesOf(d.cases, Answerable), CasesOf(d.cases, NoAnswer), CasesOf(d.cases, AclDenied), os);
    return Some(m);
  }

  function Sum(xs: seq<real>): real {
    if xs == [] then 0.0 else Sum(xs[..|xs| - 1]) + xs[|xs| - 1]
  }

  // The contributions of the cases, in order.
  function Recalls(cases: seq<Case>, os: seq<Observation>): seq<real>
    requires AllObserved(cases, os) && AllRankable(cases, os)
  {
    seq(|cases|, i requires 0 <= i < |cases| => Recall(cases[i], ObservationFor(os, cases[i].id)))
  }

  function ReciprocalRanks(cases: seq<Case>, os: seq<Observation>): seq<real>
    requires AllObserved(cases, os)
  {
    seq(|cases|, i requires 0 <= i < |cases| => ReciprocalRank(cases[i], ObservationFor(os, cases[i].id)))
  }

  ghost function Ndcgs(w: Discount, cases: seq<Case>, os: seq<Observation>): seq<real>
    requires IsDiscount(w) && AllObserved(cases, os) && AllRankable(cases, os)
  {
    seq(|cases|, i requires 0 <= i < |cases| => Ndcg(w, cases[i], ObservationFor(os, cases[i].id)))
  }

  // What the metrics say about the three groups of cases.
  ghost predicate Reflects(
    m: Metrics, answerable: seq<Case>, noAnswer: seq<Case>, denied: seq<Case>, os: seq<Observation>)
    requires AllObserved(answerable, os) && AllObserved(noAnswer, os) && AllObserved(denied, os)
  {
    && InUnit(m.recall) && InUnit(m.reciprocalRank) && InUnit(m.ndcg) && InUnit(m.noAnswerAccuracy)
    && m.aclLeakage == |Positions(LeakFlags(denied, os))| <= |denied|
    && IsShare(m.noAnswerAccuracy, |Positions(AnswerFlags(noAnswer, os))|, |noAnswer|)
    && (m.ndcg == 1.0 <==> AllPerfect(answerable, os))
    && (m.noAnswerAccuracy == 1.0 <==> NoneAnswered(noAnswer, os))
    && (m.aclLeakage == 0 <==> NoneLeaks(denied, os))
  }

  method Measure(w: Discount, answerable: seq<Case>, noAnswer: seq<Case>, denied: seq<Case>, os: seq<Observation>)
    returns (m: Metrics)
    requires IsDiscount(w) && answerable != [] && noAnswer != []
    requires AllObserved(answerable, os) && AllObserved(noAnswer, os) && AllObserved(denied, os)
    requires AllRankable(answerable, os)
    ensures Reflects(m, answerable, noAnswer, denied, os)
    ensures Averages(m.recall, m.reciprocalRank, m.ndcg, w, answerable, os)
  {
    var recall, reciprocalRank, ndcg := AnswerableAverages(w, answerable, os);
    AveragesBounds(recall, reciprocalRank, ndcg, w, answerable, os);
    var correct := CountNoAnswers(noAnswer, os);
    var leaks := CountLeaks(denied, os);
    var accuracy := Ratio(correct, |noAnswer|);
    m := Metrics(recall, reciprocalRank, ndcg, accuracy, leaks);
  }

  method Ratio(part: nat, whole: nat) returns (r: real)
    requires part <= whole && 0 < whole
    ensures InUnit(r) && IsShare(r, part, whole) && (r == 1.0 <==> part == whole)
  {
    QuotientBounds(part as real, whole as real);
    r := part as real / whole as real;
  }

  predicate IsShare(r: real, part: nat, whole: nat) { r * whole as real == part as real }

  lemma {:induction false} SumBounds(xs: seq<real>)
    requires forall i :: 0 <= i < |xs| ==> InUnit(xs[i])
    ensures 0.0 <= Sum(xs) <= |xs| as real
    ensures Sum(xs) == |xs| as real <==> forall i :: 0 <= i < |xs| ==> xs[i] == 1.0
  {
    if xs != [] {
      SumBounds(xs[..|xs| - 1]);
    }
  }

  lemma {:induction false} ContributionsAreBounded(w: Discount, cases: seq<Case>, os: seq<Observation>)
    requires IsDiscount(w) && AllObserved(cases, os) && AllRankable(cases, os)
    ensures forall i :: 0 <= i < |cases| ==> InUnit(Recalls(cases, os)[i])
    ensures forall i :: 0 <= i < |cases| ==> InUnit(ReciprocalRanks(cases, os)[i])
    ensures forall i :: 0 <= i < |cases| ==> InUnit(Ndcgs(w, cases, os)[i])
    ensures forall i :: 0 <= i < |cases| ==>
              (Ndcgs(w, cases, os)[i] == 1.0 <==> Perfect(cases[i], ObservationFor(os, cases[i].id)))
  {
    forall i | 0 <= i < |cases|
      ensures InUnit(Recalls(cases, os)[i]) && InUnit(ReciprocalRanks(cases, os)[i]) && InUnit(Ndcgs(w, cases, os)[i])
      ensures Ndcgs(w, cases, os)[i] == 1.0 <==> Perfect(cases[i], ObservationFor(os, cases[i].id))
    {
      ContributionBounds(w, cases[i], ObservationFor(os, cases[i].id));
    }
  }

  // The averages of three sums over n cases.
  ghost predicate Averages(
    recall: real, reciprocalRank: real, ndcg: real, w: Discount, cases: seq<Case>, os: seq<Observation>)
    requires IsDiscount(w) && cases != [] && AllObserved(cases, os) && AllRankable(cases, os)
  {
    var n := |cases| as real;
    && recall == Sum(Recalls(cases, os)) / n
    && reciprocalRank == Sum(ReciprocalRanks(cases, os)) / n
    && ndcg == Sum(Ndcgs(w, cases, os)) / n
  }

  lemma {:induction false} SumStep(xs: seq<real>, i: nat)
    requires i < |xs|
    ensures Sum(xs[..i + 1]) == Sum(xs[..i]) + xs[i]
  {
    assert xs[..i + 1][..i] == xs[..i];
  }

  method Contribute(w: Discount, cases: seq<Case>, os: seq<Observation>, i: nat)
    returns (recall: real, reciprocalRank: real, ndcg: real)
    requires IsDiscount(w) && i < |cases| && AllObserved(cases, os) && AllRankable(cases, os)
    ensures recall == Recalls(cases, os)[i]
    ensures reciprocalRank == ReciprocalRanks(cases, os)[i]
    ensures ndcg == Ndcgs(w, cases, os)[i]
  {
    var o := ObservationFor(os, cases[i].id);
    return Recall(cases[i], o), ReciprocalRank(cases[i], o), Ndcg(w, cases[i], o);
  }

  method AnswerableAverages(w: Discount, cases: seq<Case>, os: seq<Observation>)
    returns (recall: real, reciprocalRank: real, ndcg: real)
    requires IsDiscount(w) && cases != [] && AllObserved(cases, os) && AllRankable(cases, os)
    ensures Averages(recall, reciprocalRank, ndcg, w, cases, os)
  {
    var recallTotal, rankTotal, ndcgTotal := 0.0, 0.0, 0.0;
    ghost var r, rr, g := Recalls(cases, os), ReciprocalRanks(cases, os), Ndcgs(w, cases, os);
    for i := 0 to |cases|
      invariant recallTotal == Sum(r[..i]) && rankTotal == Sum(rr[..i]) && ndcgTotal == Sum(g[..i])
    {
      SumStep(r, i);
      SumStep(rr, i);
      SumStep(g, i);
      var a, b, c := Contribute(w, cases, os, i);
      recallTotal := recallTotal + a;
      rankTotal := rankTotal + b;
      ndcgTotal := ndcgTotal + c;
    }
    assert r[..|cases|] == r && rr[..|cases|] == rr && g[..|cases|] == g;
    var n := |cases| as real;
    return recallTotal / n, rankTotal / n, ndcgTotal / n;
  }

  lemma {:induction false} AveragesBounds(
    recall: real, reciprocalRank: real, ndcg: real, w: Discount, cases: seq<Case>, os: seq<Observation>)
    requires IsDiscount(w) && cases != [] && AllObserved(cases, os) && AllRankable(cases, os)
    requires Averages(recall, reciprocalRank, ndcg, w, cases, os)
    ensures InUnit(recall) && InUnit(reciprocalRank) && InUnit(ndcg)
    ensures ndcg == 1.0 <==> AllPerfect(cases, os)
  {
    ContributionsAreBounded(w, cases, os);
    var r, rr, g, n := Recalls(cases, os), ReciprocalRanks(cases, os), Ndcgs(w, cases, os), |cases| as real;
    SumBounds(r);
    SumBounds(rr);
    SumBounds(g);
    QuotientBounds(Sum(r), n);
    QuotientBounds(Sum(rr), n);
    QuotientBounds(Sum(g), n);
  }

  // Where a list of answers says yes.
  ghost function Positions(flags: seq<bool>): set<int> { set i | 0 <= i < |flags| && flags[i] }

  lemma {:induction false} PositionsStep(flags: seq<bool>, i: nat)
    requires i < |flags|
    ensures |Positions(flags[..i + 1])| == |Positions(flags[..i])| + if flags[i] then 1 else 0
  {
    var longer, shorter := flags[..i + 1], flags[..i];
    assert longer[i] == flags[i] && forall j :: 0 <= j < i ==> longer[j] == shorter[j];
    assert Positions(longer) == Positions(shorter) + if flags[i] then {i} else {};
  }

  lemma {:induction false} PositionsFit(flags: seq<bool>)
    ensures |Positions(flags)| <= |flags|
    ensures |Positions(flags)| == |flags| <==> forall i :: 0 <= i < |flags| ==> flags[i]
    ensures |Positions(flags)| == 0 <==> forall i :: 0 <= i < |flags| ==> !flags[i]
  {
    if flags == [] {
      assert Positions(flags) == {};
    } else {
      var n := |flags| - 1;
      PositionsFit(flags[..n]);
      PositionsStep(flags, n);
      assert flags[..n + 1] == flags;
    }
  }

  // A no-answer case is correct when nothing is ranked and access is not concealed.
  predicate AnsweredNothing(o: Observation) { o.ranked == [] && !o.concealed }

  predicate NoneAnswered(cases: seq<Case>, os: seq<Observation>)
    requires AllObserved(cases, os)
  {
    forall i :: 0 <= i < |cases| ==> AnsweredNothing(ObservationFor(os, cases[i].id))
  }

  function AnswerFlags(cases: seq<Case>, os: seq<Observation>): (r: seq<bool>)
    requires AllObserved(cases, os)
    ensures |r| == |cases| && forall i :: 0 <= i < |r| ==> r[i] == AnsweredNothing(ObservationFor(os, cases[i].id))
  {
    seq(|cases|, i requires 0 <= i < |cases| => AnsweredNothing(ObservationFor(os, cases[i].id)))
  }

  method CountNoAnswers(cases: seq<Case>, os: seq<Observation>) returns (n: nat)
    requires AllObserved(cases, os)
    ensures n == |Positions(AnswerFlags(cases, os))| <= |cases|
    ensures n == |cases| <==> NoneAnswered(cases, os)
  {
    n := 0;
    ghost var flags := AnswerFlags(cases, os);
    assert Positions(flags[..0]) == {};
    for i := 0 to |cases|
      invariant n == |Positions(flags[..i])|
    {
      PositionsStep(flags, i);
      if AnsweredNothing(ObservationFor(os, cases[i].id)) {
        n := n + 1;
      }
    }
    assert flags[..|cases|] == flags;
    PositionsFit(flags);
  }

  // An ACL case leaks unless access is concealed and nothing is ranked.
  predicate Leaks(o: Observation) { !o.concealed || o.ranked != [] }

  predicate NoneLeaks(cases: seq<Case>, os: seq<Observation>)
    requires AllObserved(cases, os)
  {
    forall i :: 0 <= i < |cases| ==> !Leaks(ObservationFor(os, cases[i].id))
  }

  function LeakFlags(cases: seq<Case>, os: seq<Observation>): (r: seq<bool>)
    requires AllObserved(cases, os)
    ensures |r| == |cases| && forall i :: 0 <= i < |r| ==> r[i] == Leaks(ObservationFor(os, cases[i].id))
  {
    seq(|cases|, i requires 0 <= i < |cases| => Leaks(ObservationFor(os, cases[i].id)))
  }

  method CountLeaks(cases: seq<Case>, os: seq<Observation>) returns (n: nat)
    requires AllObserved(cases, os)
    ensures n == |Positions(LeakFlags(cases, os))| <= |cases|
    ensures n == 0 <==> NoneLeaks(cases, os)
  {
    n := 0;
    ghost var flags := LeakFlags(cases, os);
    assert Positions(flags[..0]) == {};
    for i := 0 to |cases|
      invariant n == |Positions(flags[..i])|
    {
      PositionsStep(flags, i);
      if Leaks(ObservationFor(os, cases[i].id)) {
        n := n + 1;
      }
    }
    assert flags[..|cases|] == flags;
    PositionsFit(flags);
  }

  // ---- the release thresholds ----

  datatype Failure = InvalidMetric(index: nat) | BelowThreshold(index: nat) | TooManyLeaks

  // assert_rag_retrieval_thresholds; None is an invalid threshold.
  function Failures(metrics: seq<real>, required: seq<real>, leaks: nat, maximumLeaks: int): Option<seq<Failure>>
    requires |metrics| == |required|
  {
    if (exists i :: 0 <= i < |required| && !InUnit(required[i])) || maximumLeaks < 0 then None
    else Some(MetricFailures(metrics, required, 0) + if maximumLeaks < leaks then [TooManyLeaks] else [])
  }

  function MetricFailures(metrics: seq<real>, required: seq<real>, i: nat): seq<Failure>
    requires |metrics| == |required| && i <= |metrics|
    decreases |metrics| - i
  {
    if i == |metrics| then []
    else
      (if !InUnit(metrics[i]) then [InvalidMetric(i)] else if metrics[i] < required[i] then [BelowThreshold(i)] else [])
      + MetricFailures(metrics, required, i + 1)
  }

  predicate AllBelow(fs: seq<Failure>) { forall j :: 0 <= j < |fs| ==> fs[j].BelowThreshold? }

  lemma AllBelowConcat(a: seq<Failure>, b: seq<Failure>)
    requires AllBelow(a) && AllBelow(b)
    ensures AllBelow(a + b)
  {
  }

  lemma {:induction false} NoneInvalid(metrics: seq<real>, required: seq<real>, i: nat)
    requires |metrics| == |required| && i <= |metrics|
    requires forall j :: 0 <= j < |metrics| ==> InUnit(metrics[j])
    ensures AllBelow(MetricFailures(metrics, required, i))
    decreases |metrics| - i
  {
    if i < |metrics| {
      NoneInvalid(metrics, required, i + 1);
      var first := if metrics[i] < required[i] then [BelowThreshold(i)] else [];
      AllBelowConcat(first, MetricFailures(metrics, required, i + 1));
    }
  }

  predicate Reached(metrics: seq<real>, required: seq<real>, i: nat)
    requires |metrics| == |required|
  {
    forall j :: i <= j < |metrics| ==> required[j] <= metrics[j]
  }

  lemma {:induction false} NoFailureIffReached(metrics: seq<real>, required: seq<real>, i: nat)
    requires |metrics| == |required| && i <= |metrics|
    requires forall j :: 0 <= j < |metrics| ==> InUnit(metrics[j])
    ensures MetricFailures(metrics, required, i) == [] <==> Reached(metrics, required, i)
    decreases |metrics| - i
  {
    if i < |metrics| {
      NoFailureIffReached(metrics, required, i + 1);
      assert Reached(metrics, required, i) <==> required[i] <= metrics[i] && Reached(metrics, required, i + 1);
    }
  }

  function Listed(m: Metrics): seq<real> { [m.recall, m.reciprocalRank, m.ndcg, m.noAnswerAccuracy] }

  predicate AllInUnit(m: Metrics) {
    InUnit(m.recall) && InUnit(m.reciprocalRank) && InUnit(m.ndcg) && InUnit(m.noAnswerAccuracy)
  }

  predicate ThresholdsOk(required: seq<real>, maximumLeaks: int) {
    0 <= maximumLeaks && forall i :: 0 <= i < |required| ==> InUnit(required[i])
  }

  lemma {:induction false} EvaluatedMetricsAreValid(m: Metrics, required: seq<real>, maximumLeaks: int)
    requires AllInUnit(m) && |required| == 4
    ensures var failures := Failures(Listed(m), required, m.aclLeakage, maximumLeaks);
            && (failures.Some? <==> ThresholdsOk(required, maximumLeaks))
            && (failures.Some? ==>
                  && (forall f :: f in failures.value ==> !f.InvalidMetric?)
                  && (failures.value == [] <==> Reached(Listed(m), required, 0) && m.aclLeakage <= maximumLeaks))
  {
    NoneInvalid(Listed(m), required, 0);
    NoFailureIffReached(Listed(m), required, 0);
  }

  /**
    Evaluation followed by the threshold check. The check never calls an evaluated metric
    invalid, and reports nothing exactly when every metric reaches its threshold and the leaks
    stay within the maximum.
   */
  method Assess(w: Discount, d: Dataset, os: seq<Observation>, required: seq<real>, maximumLeaks: int)
    returns (m: Option<Metrics>, failures: Option<seq<Failure>>)
    requires IsDiscount(w) && |required| == 4
    ensures m.Some? <==> DatasetOk(d) && ObservationsOk(d, os)
    ensures failures.Some? <==> m.Some? && ThresholdsOk(required, maximumLeaks)
    ensures failures.Some? ==>
              && (forall f :: f in failures.value ==> !f.InvalidMetric?)
              && (failures.value == [] <==> Reached(Listed(m.value), required, 0) && m.value.aclLeakage <= maximumLeaks)
  {
    m := Evaluate(w, d, os);
    failures := None;
    if m.Some? {
      failures := Check(m.value, required, maximumLeaks);
    }
  }

  // assert_rag_retrieval_thresholds on evaluated metrics.
  method Check(m: Metrics, required: seq<real>, maximumLeaks: int) returns (failures: Option<seq<Failure>>)
    requires AllInUnit(m) && |required| == 4
    ensures failures.Some? <==> ThresholdsOk(required, maximumLeaks)
    ensures failures.Some? ==>
              && (forall f :: f in failures.value ==> !f.InvalidMetric?)
              && (failures.value == [] <==> Reached(Listed(m), required, 0) && m.aclLeakage <= maximumLeaks)
  {
    EvaluatedMetricsAreValid(m, required, maximumLeaks);
    failures := Failures(Listed(m), required, m.aclLeakage, maximumLeaks);
  }
}
