/**
  What the retrieval metrics of scripts/rag_retrieval_evaluation.py say about a ranking, position
  by position.
 */
module RagMeanings {
  import opened Common
  import opened Sequences
  import opened RagMetrics

  // The positions among the first k that hold something relevant.
  ghost function RelevantAt(relevant: set<string>, ranked: seq<string>, k: nat): set<int> {
    set i | 0 <= i < |ranked| && i < k && ranked[i] in relevant
  }

  function Flags(relevant: set<string>, ranked: seq<string>): (r: seq<bool>)
    ensures |r| == |ranked| && forall i :: 0 <= i < |r| ==> r[i] == (ranked[i] in relevant)
  {
    seq(|ranked|, i requires 0 <= i < |ranked| => ranked[i] in relevant)
  }

  lemma {:induction false} HitsSnoc(relevant: set<string>, ranked: seq<string>, x: string)
    ensures Hits(relevant, ranked + [x]) == Hits(relevant, ranked) + if x in relevant then 1 else 0
  {
    if ranked == [] {
      assert ranked + [x] == [x] && [x][1..] == [];
    } else {
      assert (ranked + [x])[1..] == ranked[1..] + [x];
      HitsSnoc(relevant, ranked[1..], x);
    }
  }

  lemma {:induction false} HitsArePositions(relevant: set<string>, ranked: seq<string>, n: nat)
    requires n <= |ranked|
    ensures Hits(relevant, ranked[..n]) == |Positions(Flags(relevant, ranked)[..n])|
  {
    if n == 0 {
      assert Positions(Flags(relevant, ranked)[..n]) == {};
    } else {
      HitsArePositions(relevant, ranked, n - 1);
      PositionsStep(Flags(relevant, ranked), n - 1);
      HitsSnoc(relevant, ranked[..n - 1], ranked[n - 1]);
      assert ranked[..n - 1] + [ranked[n - 1]] == ranked[..n];
    }
  }

  /** Recall counts the relevant entries among the first five. */
  lemma {:induction false} RecallMeans(c: Case, o: Observation)
    requires c.relevant != [] && NoDuplicates(o.ranked)
    ensures o.concealed ==> Recall(c, o) == 0.0
    ensures !o.concealed ==>
              IsShare(Recall(c, o), |RelevantAt(Elements(c.relevant), o.ranked, 5)|, |Elements(c.relevant)|)
  {
    var relevant := Elements(c.relevant);
    assert c.relevant[0] in relevant;
    FoundArePositions(relevant, o.ranked);
    QuotientIsShare(|relevant * Elements(Top(o.ranked, 5))|, |relevant|);
  }

  lemma {:induction false} QuotientIsShare(part: nat, whole: nat)
    requires 0 < whole
    ensures IsShare(part as real / whole as real, part, whole)
  {
    var p, w := part as real, whole as real;
    assert p / w * w == p;
  }

  lemma {:induction false} FoundArePositions(relevant: set<string>, ranked: seq<string>)
    requires NoDuplicates(ranked)
    ensures |relevant * Elements(Top(ranked, 5))| == |RelevantAt(relevant, ranked, 5)|
  {
    var top := Top(ranked, 5);
    HitsArePositions(relevant, ranked, |top|);
    assert Positions(Flags(relevant, ranked)[..|top|]) == RelevantAt(relevant, ranked, 5);
    HitsAreDistinct(relevant, top);
  }

  predicate FirstAt(relevant: set<string>, ranked: seq<string>, k: nat) {
    k < |ranked| && ranked[k] in relevant && forall i :: 0 <= i < k ==> ranked[i] !in relevant
  }

  lemma {:induction false} FirstRankIs(relevant: set<string>, ranked: seq<string>, rank: nat, k: nat)
    ensures FirstAt(relevant, ranked, k) ==> FirstRank(relevant, ranked, rank) == Some(rank + k)
    ensures (forall i :: 0 <= i < |ranked| ==> ranked[i] !in relevant) ==> FirstRank(relevant, ranked, rank) == None
    decreases |ranked|
  {
    if ranked != [] {
      assert forall i :: 0 < i < |ranked| ==> ranked[i] == ranked[1..][i - 1];
      FirstRankIs(relevant, ranked[1..], rank + 1, if k == 0 then 0 else k - 1);
      if FirstAt(relevant, ranked, k) && k > 0 {
        assert ranked[0] !in relevant && FirstAt(relevant, ranked[1..], k - 1);
      }
    }
  }

  /** The reciprocal rank is one over the position of the first relevant entry, counted from one. */
  lemma {:induction false} ReciprocalRankMeans(c: Case, o: Observation, k: nat)
    ensures !o.concealed && FirstAt(Elements(c.relevant), o.ranked, k) ==>
              ReciprocalRank(c, o) == 1.0 / (k + 1) as real
    ensures o.concealed || (forall i :: 0 <= i < |o.ranked| ==> o.ranked[i] !in Elements(c.relevant)) ==>
              ReciprocalRank(c, o) == 0.0
  {
    FirstRankIs(Elements(c.relevant), o.ranked, 1, k);
  }

  // Nothing relevant gains nothing.
  lemma {:induction false} NoGain(w: Discount, relevant: set<string>, ranked: seq<string>, rank: nat)
    requires forall i :: 0 <= i < |ranked| ==> ranked[i] !in relevant
    ensures Gain(w, relevant, ranked, rank) == 0.0
    decreases |ranked|
  {
    if ranked != [] {
      NoGain(w, relevant, ranked[1..], rank + 1);
    }
  }

  lemma {:induction false} OneGain(w: Discount, relevant: set<string>, ranked: seq<string>, rank: nat, k: nat)
    requires k < |ranked| && forall i :: 0 <= i < |ranked| ==> (ranked[i] in relevant <==> i == k)
    ensures Gain(w, relevant, ranked, rank) == w(rank + k)
    decreases |ranked|
  {
    var rest := ranked[1..];
    assert forall i :: 0 <= i < |rest| ==> rest[i] == ranked[i + 1];
    if k == 0 {
      NoGain(w, relevant, rest, rank + 1);
    } else {
      OneGain(w, relevant, rest, rank + 1, k - 1);
    }
  }

  /** A single relevant entry at position k of the first five has nDCG w(k + 1) / w(1), later ones 0. */
  lemma {:induction false} SingleAnswerNdcg(w: Discount, c: Case, o: Observation, answer: string, k: nat)
    requires IsDiscount(w) && c.relevant == [answer] && NoDuplicates(o.ranked) && !o.concealed
    requires k < |o.ranked| && o.ranked[k] == answer
    ensures 0.0 < w(1) && Ndcg(w, c, o) == if k < 5 then w(k + 1) / w(1) else 0.0
  {
    assert 0.0 < w(2) < w(1);
    var relevant, top := Elements(c.relevant), Top(o.ranked, 5);
    assert relevant == {answer};
    assert forall i :: 0 <= i < |top| ==> (top[i] in relevant <==> i == k);
    assert Best(w, 1, 1) == w(1) + Best(w, 2, 0);
    if k < 5 {
      OneGain(w, relevant, top, 1, k);
    } else {
      NoGain(w, relevant, top, 1);
    }
  }

  /**
    In a valid evaluation a case has one observation, and what it ranks is in the catalog once, in
    the case's scope.
   */
  lemma {:induction false} RankingsStayInScope(d: Dataset, os: seq<Observation>, i: nat)
    returns (j: nat)
    requires DatasetOk(d) && ObservationsOk(d, os) && i < |d.cases|
    ensures j < |os| && os[j].caseId == d.cases[i].id
    ensures forall m :: 0 <= m < |os| && os[m].caseId == d.cases[i].id ==> m == j
    ensures os[j].concealed ==> os[j].ranked == []
    ensures forall k, e :: 0 <= k < |os[j].ranked| && 0 <= e < |d.entries| && d.entries[e].key == os[j].ranked[k] ==>
                             d.entries[e].scope == d.cases[i].scope
    ensures forall k :: 0 <= k < |os[j].ranked| ==> HasEntry(d.entries, os[j].ranked[k], d.cases[i].scope)
  {
    var c := d.cases[i];
    EveryCaseIsObserved(d, os, c);
    j :| 0 <= j < |os| && os[j].caseId == c.id;
    assert CaseIds(os)[j] == c.id;
    forall m | 0 <= m < |os| && os[m].caseId == c.id ensures m == j {
      assert CaseIds(os)[m] == c.id;
    }
    assert ObservationOk(d, os[j]);
    forall k, e | 0 <= k < |os[j].ranked| && 0 <= e < |d.entries| && d.entries[e].key == os[j].ranked[k]
      ensures d.entries[e].scope == c.scope
    {
      OneEntryPerKey(d, os[j].ranked[k], c.scope, e);
    }
  }

  lemma {:induction false} OneEntryPerKey(d: Dataset, key: string, scope: string, e: nat)
    requires NoDuplicates(Keys(d.entries)) && HasEntry(d.entries, key, scope)
    requires e < |d.entries| && d.entries[e].key == key
    ensures d.entries[e].scope == scope
  {
    var f :| 0 <= f < |d.entries| && d.entries[f] == Entry(key, scope);
    assert Keys(d.entries)[f] == key && Keys(d.entries)[e] == key;
  }

  // ---- the report of missed thresholds ----

  predicate Missed(m: Metrics, required: seq<real>, leaks: int, f: Failure)
    requires |required| == 4
  {
    || (f == BelowThreshold(0) && m.recall < required[0])
    || (f == BelowThreshold(1) && m.reciprocalRank < required[1])
    || (f == BelowThreshold(2) && m.ndcg < required[2])
    || (f == BelowThreshold(3) && m.noAnswerAccuracy < required[3])
    || (f == TooManyLeaks && leaks < m.aclLeakage)
  }

  lemma {:induction false} FailuresFrom(metrics: seq<real>, required: seq<real>, i: nat, f: Failure)
    requires |metrics| == |required| && i <= |metrics|
    requires forall j :: 0 <= j < |metrics| ==> InUnit(metrics[j])
    ensures f in MetricFailures(metrics, required, i)
            <==> f.BelowThreshold? && i <= f.index < |metrics| && metrics[f.index] < required[f.index]
    decreases |metrics| - i
  {
    if i < |metrics| {
      FailuresFrom(metrics, required, i + 1, f);
      var first := if metrics[i] < required[i] then [BelowThreshold(i)] else [];
      assert MetricFailures(metrics, required, i) == first + MetricFailures(metrics, required, i + 1);
      assert f in first <==> f == BelowThreshold(i) && metrics[i] < required[i];
    }
  }

  /** The report lists exactly the metrics below their threshold, and leaks beyond the maximum. */
  lemma {:induction false} ReportsExactlyTheMissed(m: Metrics, required: seq<real>, leaks: int, f: Failure)
    requires AllInUnit(m) && |required| == 4 && ThresholdsOk(required, leaks)
    ensures Failures(Listed(m), required, m.aclLeakage, leaks).Some?
    ensures f in Failures(Listed(m), required, m.aclLeakage, leaks).value <==> Missed(m, required, leaks, f)
  {
    FailuresFrom(Listed(m), required, 0, f);
  }
}
