/**
  Machine-readable test evidence: the JUnit form (scripts/acceptance_gate.py) and the Vitest form
  (scripts/functional_acceptance.py). Both meet one specification: success means that the
  executed tests are a permutation of the expected ones and that each of them passed.
 */
module TestEvidence {
  import opened Common
  import opened Sequences
  import opened Sorting
  import opened PytestNodes
  import opened Strings

  datatype Outcome = Passed | Failed | Errored | Skipped | XFailed | XPassed

  function Count(outcomes: seq<Outcome>, o: Outcome): nat { multiset(outcomes)[o] }

  predicate AllPassed(outcomes: seq<Outcome>) { forall i :: 0 <= i < |outcomes| ==> outcomes[i] == Passed }

  datatype Evidence = Evidence(
    collected: nat, executed: nat,
    passed: nat, failed: nat, errors: nat, skipped: nat, xfailed: nat, xpassed: nat,
    deselected: nat, unexpected: nat,
    nodes: seq<string>, missing: seq<string>, unexpectedNodes: seq<string>)
  {
    predicate IsSuccess() {
      && collected > 0 && executed == collected && passed == collected
      && failed == 0 && errors == 0 && skipped == 0 && xfailed == 0 && xpassed == 0
      && deselected == 0 && unexpected == 0
    }

    // The counters count the outcomes, so together they partition the executed tests.
    ghost predicate Tallies(outcomes: seq<Outcome>) {
      && executed == |outcomes| == passed + failed + errors + skipped + xfailed + xpassed
      && passed == Count(outcomes, Passed) && failed == Count(outcomes, Failed)
      && errors == Count(outcomes, Errored) && skipped == Count(outcomes, Skipped)
      && xfailed == Count(outcomes, XFailed) && xpassed == Count(outcomes, XPassed)
    }
  }

  // ---- counting ----

  lemma {:induction false} OutcomesPartition(s: seq<Outcome>)
    ensures |s| == Count(s, Passed) + Count(s, Failed) + Count(s, Errored) + Count(s, Skipped) + Count(s, XFailed)
            + Count(s, XPassed)
    ensures Count(s, Passed) == |s| <==> AllPassed(s)
  {
    if s != [] {
      var rest := s[..|s| - 1];
      assert s == rest + [s[|s| - 1]];
      OutcomesPartition(rest);
      assert AllPassed(s) <==> AllPassed(rest) && s[|s| - 1] == Passed;
    }
  }

  lemma CountStep(s: seq<Outcome>, x: Outcome)
    ensures forall o: Outcome :: Count(s + [x], o) == Count(s, o) + if o == x then 1 else 0
  {
  }

  datatype Tally = Tally(passed: nat, failed: nat, errors: nat, skipped: nat, xfailed: nat, xpassed: nat)

  ghost predicate Counts(t: Tally, s: seq<Outcome>) {
    && t.passed == Count(s, Passed) && t.failed == Count(s, Failed) && t.errors == Count(s, Errored)
    && t.skipped == Count(s, Skipped) && t.xfailed == Count(s, XFailed) && t.xpassed == Count(s, XPassed)
  }

  function Add(t: Tally, o: Outcome): Tally {
    match o
    case Passed => t.(passed := t.passed + 1)
    case Failed => t.(failed := t.failed + 1)
    case Errored => t.(errors := t.errors + 1)
    case Skipped => t.(skipped := t.skipped + 1)
    case XFailed => t.(xfailed := t.xfailed + 1)
    case XPassed => t.(xpassed := t.xpassed + 1)
  }

  lemma {:induction false} AddCounts(t: Tally, s: seq<Outcome>, o: Outcome)
    requires Counts(t, s)
    ensures Counts(Add(t, o), s + [o])
  {
    CountStep(s, o);
  }

  // ---- exactness of a list of nodes ----

  function Duplicates(s: seq<string>): int { |s| - |Elements(s)| }

  /** Nothing missing, nothing unexpected and nothing repeated means a permutation. */
  lemma {:induction false} ExactIffPermutation(actual: seq<string>, expected: seq<string>)
    requires NoDuplicates(expected)
    ensures 0 <= Duplicates(actual)
    ensures |Elements(expected) - Elements(actual)| == 0
            && |Elements(actual) - Elements(expected)| + Duplicates(actual) == 0
            <==> multiset(actual) == multiset(expected)
  {
    ElementsSize(actual);
    if multiset(actual) == multiset(expected) {
      PermutationKeepsNoDuplicates(expected, actual);
    } else if NoDuplicates(actual) {
      SameElementsPermute(actual, expected);
      assert Elements(expected) - Elements(actual) != {} || Elements(actual) - Elements(expected) != {};
    }
  }

  lemma {:induction false} SortedSize(s: set<string>)
    ensures |Sorted(s)| == |s|
  {
    ElementsSize(Sorted(s));
  }

  // Both forms end alike: `extra` are the nodes already known to be unexpected.
  method Conclude(expected: seq<string>, actual: seq<string>, extra: set<string>, t: Tally) returns (e: Evidence)
    ensures e.collected == |expected| && e.executed == |actual| && e.nodes == actual
    ensures Tally(e.passed, e.failed, e.errors, e.skipped, e.xfailed, e.xpassed) == t
    ensures e.missing == Sorted(Elements(expected) - Elements(actual)) && e.deselected == |e.missing|
    ensures e.unexpectedNodes == Sorted(extra + (Elements(actual) - Elements(expected)))
    ensures e.unexpected == |e.unexpectedNodes| + Duplicates(actual)
  {
    var missing := Sort(Elements(expected) - Elements(actual));
    var unexpected := Sort(extra + (Elements(actual) - Elements(expected)));
    ElementsSize(actual);
    e := Evidence(|expected|, |actual|, t.passed, t.failed, t.errors, t.skipped, t.xfailed, t.xpassed,
                  |missing|, |unexpected| + Duplicates(actual), actual, missing, unexpected);
  }

  /** A concluded evidence succeeds exactly for a permutation of at least one expected node, all passed. */
  lemma {:induction false} ConcludedSuccess(
    e: Evidence, expected: seq<string>, actual: seq<string>, extra: set<string>, outcomes: seq<Outcome>)
    requires NoDuplicates(expected) && |actual| == |outcomes|
    requires e.collected == |expected| && e.executed == |actual| && e.Tallies(outcomes)
    requires e.deselected == |Sorted(Elements(expected) - Elements(actual))|
    requires e.unexpected == |Sorted(extra + (Elements(actual) - Elements(expected)))| + Duplicates(actual)
    ensures e.IsSuccess()
            <==> expected != [] && extra == {} && multiset(actual) == multiset(expected) && AllPassed(outcomes)
  {
    OutcomesPartition(outcomes);
    ExactIffPermutation(actual, expected);
    SortedSize(Elements(expected) - Elements(actual));
    SortedSize(extra + (Elements(actual) - Elements(expected)));
    if extra == {} {
      assert extra + (Elements(actual) - Elements(expected)) == Elements(actual) - Elements(expected);
    } else {
      var x :| x in extra;
      assert x in extra + (Elements(actual) - Elements(expected));
    }
    if multiset(actual) == multiset(expected) {
      assert |multiset(actual)| == |actual| && |multiset(expected)| == |expected|;
    }
  }

  // ---- JUnit ----

  type JUnitKey = (string, string)

  // The text of an element is its type, message and text; None is an absent element.
  datatype JUnitCase = JUnitCase(
    classname: Option<string>, name: Option<string>,
    failure: Option<string>, error: Option<string>, skipped: Option<string>)

  function Lower(s: string): string {
    seq(|s|, i requires 0 <= i < |s| => if 'A' <= s[i] <= 'Z' then s[i] - 'A' + 'a' else s[i])
  }

  predicate Mentions(text: Option<string>, word: string) {
    text.Some? && Find(Lower(text.value), word, 0).Some?
  }

  function JUnitOutcome(c: JUnitCase): Outcome {
    if Mentions(c.failure, "xpass") then XPassed
    else if c.failure.Some? then Failed
    else if c.error.Some? then Errored
    else if Mentions(c.skipped, "xfail") then XFailed
    else if c.skipped.Some? then Skipped
    else Passed
  }

  function OrEmpty(s: Option<string>): string { if s.None? then "" else s.value }

  function CaseKey(c: JUnitCase): JUnitKey { (OrEmpty(c.classname), OrEmpty(c.name)) }

  function CaseKeys(cases: seq<JUnitCase>): (r: seq<JUnitKey>)
    ensures |r| == |cases| && forall i :: 0 <= i < |r| ==> r[i] == CaseKey(cases[i])
  {
    seq(|cases|, i requires 0 <= i < |cases| => CaseKey(cases[i]))
  }

  function CaseOutcomes(cases: seq<JUnitCase>): (r: seq<Outcome>)
    ensures |r| == |cases| && forall i :: 0 <= i < |r| ==> r[i] == JUnitOutcome(cases[i])
  {
    seq(|cases|, i requires 0 <= i < |cases| => JUnitOutcome(cases[i]))
  }

  function Normalized(nodes: seq<string>): (r: seq<string>)
    ensures |r| == |nodes| && forall i :: 0 <= i < |r| ==> r[i] == Normalize(nodes[i])
  {
    seq(|nodes|, i requires 0 <= i < |nodes| => Normalize(nodes[i]))
  }

  predicate AllValid(nodes: seq<string>) { forall i :: 0 <= i < |nodes| ==> Key(nodes[i]).Some? }

  function Keys(nodes: seq<string>): (r: seq<JUnitKey>)
    requires AllValid(nodes)
    ensures |r| == |nodes| && forall i :: 0 <= i < |r| ==> r[i] == Key(nodes[i]).value
  {
    seq(|nodes|, i requires 0 <= i < |nodes| => Key(nodes[i]).value)
  }

  datatype JUnitError = EmptyOrDuplicated | InvalidNode | AmbiguousIdentities

  // The map takes each key to the node in its place, and has no other keys.
  ghost predicate Maps(m: map<JUnitKey, string>, keys: seq<JUnitKey>, nodes: seq<string>) {
    && |keys| == |nodes| && m.Keys == Elements(keys)
    && (forall i :: 0 <= i < |keys| ==> keys[i] in m && m[keys[i]] == nodes[i])
  }

  lemma {:induction false} MapsSnoc(
    m: map<JUnitKey, string>, keys: seq<JUnitKey>, nodes: seq<string>, key: JUnitKey, node: string)
    requires Maps(m, keys, nodes) && key !in m
    ensures Maps(m[key := node], keys + [key], nodes + [node])
  {
    ElementsSnoc(keys, key);
    assert forall i :: 0 <= i < |keys| ==> (keys + [key])[i] == keys[i] && keys[i] in m;
  }

  // key_to_node is the inverse of Key on the expected nodes.
  ghost predicate IsIndex(m: map<JUnitKey, string>, nodes: seq<string>)
    requires AllValid(nodes)
  {
    Maps(m, Keys(nodes), nodes)
  }

  // The nodes are valid, their keys are distinct, and the map is their index.
  ghost predicate Indexed(m: map<JUnitKey, string>, nodes: seq<string>) {
    AllValid(nodes) && NoDuplicates(Keys(nodes)) && IsIndex(m, nodes)
  }

  method BuildIndex(nodes: seq<string>) returns (r: Result<map<JUnitKey, string>, JUnitError>)
    ensures r.Ok? <==> AllValid(nodes) && NoDuplicates(Keys(nodes))
    ensures r.Ok? ==> IsIndex(r.value, nodes)
    ensures r.Err? ==> r.error != EmptyOrDuplicated
  {
    var m: map<JUnitKey, string> := map[];
    for i := 0 to |nodes|
      invariant Indexed(m, nodes[..i])
    {
      var key := Key(nodes[i]);
      if key.None? {
        return Err(InvalidNode);
      }
      if key.value in m {
        SharedKey(nodes, i);
        return Err(AmbiguousIdentities);
      }
      PrefixStep(nodes, i);
      IndexStep(m, nodes[..i], nodes[i]);
      m := m[key.value := nodes[i]];
    }
    assert nodes[..|nodes|] == nodes;
    return Ok(m);
  }

  lemma {:induction false} IndexStep(m: map<JUnitKey, string>, nodes: seq<string>, node: string)
    requires Indexed(m, nodes) && Key(node).Some? && Key(node).value !in m
    ensures Indexed(m[Key(node).value := node], nodes + [node])
  {
    KeysStep(nodes, node);
    MapsSnoc(m, Keys(nodes), nodes, Key(node).value, node);
    assert Key(node).value !in Elements(Keys(nodes));
    DistinctSnoc(Keys(nodes), Key(node).value);
  }

  lemma KeysStep(nodes: seq<string>, node: string)
    requires AllValid(nodes) && Key(node).Some?
    ensures AllValid(nodes + [node]) && Keys(nodes + [node]) == Keys(nodes) + [Key(node).value]
  {
  }

  lemma {:induction false} SharedKey(nodes: seq<string>, i: nat)
    requires i < |nodes| && AllValid(nodes[..i]) && Key(nodes[i]).Some? && Key(nodes[i]).value in Keys(nodes[..i])
    ensures AllValid(nodes) ==> !NoDuplicates(Keys(nodes))
  {
    var j :| 0 <= j < i && Keys(nodes[..i])[j] == Key(nodes[i]).value;
    assert nodes[..i][j] == nodes[j];
    if AllValid(nodes) {
      assert Keys(nodes)[j] == Keys(nodes)[i];
    }
  }

  function NodeOf(m: map<JUnitKey, string>, c: JUnitCase): string {
    var key := CaseKey(c);
    if key in m then m[key] else "junit:" + key.0 + "::" + key.1
  }

  function NodesOf(m: map<JUnitKey, string>, cases: seq<JUnitCase>): (r: seq<string>)
    ensures |r| == |cases| && forall i :: 0 <= i < |r| ==> r[i] == NodeOf(m, cases[i])
  {
    seq(|cases|, i requires 0 <= i < |cases| => NodeOf(m, cases[i]))
  }

  ghost function Strangers(m: map<JUnitKey, string>, cases: seq<JUnitCase>): set<string> {
    set c | c in cases && CaseKey(c) !in m :: NodeOf(m, c)
  }

  // The loop over the test cases.
  method ReadCases(m: map<JUnitKey, string>, cases: seq<JUnitCase>)
    returns (actual: seq<string>, strangers: set<string>, t: Tally)
    ensures actual == NodesOf(m, cases) && strangers == Strangers(m, cases)
    ensures Counts(t, CaseOutcomes(cases))
  {
    actual, strangers, t := [], {}, Tally(0, 0, 0, 0, 0, 0);
    for i := 0 to |cases|
      invariant actual == NodesOf(m, cases[..i]) && strangers == Strangers(m, cases[..i])
      invariant Counts(t, CaseOutcomes(cases[..i]))
    {
      var c := cases[i];
      PrefixStep(cases, i);
      ReadStep(m, cases[..i], c, t);
      var node, outcome := NodeOf(m, c), JUnitOutcome(c);
      strangers := strangers + if CaseKey(c) !in m then {node} else {};
      actual := actual + [node];
      t := Add(t, outcome);
    }
    assert cases[..|cases|] == cases;
  }

  lemma {:induction false} ReadStep(m: map<JUnitKey, string>, cases: seq<JUnitCase>, c: JUnitCase, t: Tally)
    requires Counts(t, CaseOutcomes(cases))
    ensures NodesOf(m, cases + [c]) == NodesOf(m, cases) + [NodeOf(m, c)]
    ensures Strangers(m, cases + [c]) == Strangers(m, cases) + if CaseKey(c) !in m then {NodeOf(m, c)} else {}
    ensures Counts(Add(t, JUnitOutcome(c)), CaseOutcomes(cases + [c]))
  {
    NodesStep(m, cases, c);
    StrangersStep(m, cases, c);
    OutcomesStep(cases, c);
    AddCounts(t, CaseOutcomes(cases), JUnitOutcome(c));
  }

  lemma NodesStep(m: map<JUnitKey, string>, cases: seq<JUnitCase>, c: JUnitCase)
    ensures NodesOf(m, cases + [c]) == NodesOf(m, cases) + [NodeOf(m, c)]
  {
  }

  lemma OutcomesStep(cases: seq<JUnitCase>, c: JUnitCase)
    ensures CaseOutcomes(cases + [c]) == CaseOutcomes(cases) + [JUnitOutcome(c)]
  {
  }

  lemma {:induction false} StrangersStep(m: map<JUnitKey, string>, cases: seq<JUnitCase>, c: JUnitCase)
    ensures Strangers(m, cases + [c]) == Strangers(m, cases) + if CaseKey(c) !in m then {NodeOf(m, c)} else {}
  {
    assert forall x :: x in cases + [c] <==> x in cases || x == c;
  }

  // The keys of the cases, and the nodes they were looked up as.
  predicate AllKnown(m: map<JUnitKey, string>, keys: seq<JUnitKey>) {
    forall i :: 0 <= i < |keys| ==> keys[i] in m
  }

  predicate LookedUp(m: map<JUnitKey, string>, keys: seq<JUnitKey>, nodes: seq<string>) {
    |keys| == |nodes| && forall i :: 0 <= i < |keys| && keys[i] in m ==> nodes[i] == m[keys[i]]
  }

  /**
    For an index of distinct expected nodes: without strangers the nodes of the cases are a
    permutation of the expected nodes exactly when the keys are; a permutation of the keys leaves
    no stranger.
   */
  lemma {:induction false} KeysPermuteIff(
    m: map<JUnitKey, string>, wanted: seq<JUnitKey>, expected: seq<string>, keys: seq<JUnitKey>, nodes: seq<string>)
    requires NoDuplicates(wanted) && NoDuplicates(expected) && Maps(m, wanted, expected) && LookedUp(m, keys, nodes)
    ensures AllKnown(m, keys) && multiset(nodes) == multiset(expected) <==> multiset(keys) == multiset(wanted)
  {
    if AllKnown(m, keys) && multiset(nodes) == multiset(expected) {
      NodesGiveKeys(m, wanted, expected, keys, nodes);
    }
    if multiset(keys) == multiset(wanted) {
      KeysGiveNodes(m, wanted, expected, keys, nodes);
    }
  }

  lemma {:induction false} NodesGiveKeys(
    m: map<JUnitKey, string>, wanted: seq<JUnitKey>, expected: seq<string>, keys: seq<JUnitKey>, nodes: seq<string>)
    requires NoDuplicates(wanted) && NoDuplicates(expected) && Maps(m, wanted, expected) && LookedUp(m, keys, nodes)
    requires AllKnown(m, keys) && multiset(nodes) == multiset(expected)
    ensures multiset(keys) == multiset(wanted)
  {
    PermutationKeepsNoDuplicates(expected, nodes);
    assert NoDuplicates(keys);
    forall j | 0 <= j < |wanted| ensures wanted[j] in Elements(keys) {
      assert expected[j] in Elements(nodes);
      var i :| 0 <= i < |nodes| && nodes[i] == expected[j];
      IndexIsInjective(m, wanted, expected, keys[i], j);
    }
    assert forall i :: 0 <= i < |keys| ==> keys[i] in m.Keys;
    assert Elements(keys) == Elements(wanted);
    SameElementsPermute(keys, wanted);
  }

  lemma {:induction false} IndexIsInjective(
    m: map<JUnitKey, string>, wanted: seq<JUnitKey>, expected: seq<string>, key: JUnitKey, j: nat)
    requires NoDuplicates(expected) && Maps(m, wanted, expected) && j < |expected|
    requires key in m && m[key] == expected[j]
    ensures key == wanted[j]
  {
    assert key in Elements(wanted);
    var k :| 0 <= k < |wanted| && wanted[k] == key;
    assert m[key] == expected[k];
  }

  lemma {:induction false} KeysGiveNodes(
    m: map<JUnitKey, string>, wanted: seq<JUnitKey>, expected: seq<string>, keys: seq<JUnitKey>, nodes: seq<string>)
    requires NoDuplicates(wanted) && NoDuplicates(expected) && Maps(m, wanted, expected) && LookedUp(m, keys, nodes)
    requires multiset(keys) == multiset(wanted)
    ensures AllKnown(m, keys) && multiset(nodes) == multiset(expected)
  {
    PermutationKeepsNoDuplicates(wanted, keys);
    forall i | 0 <= i < |keys| ensures keys[i] in m && nodes[i] in Elements(expected) {
      assert keys[i] in Elements(wanted);
      var j :| 0 <= j < |wanted| && wanted[j] == keys[i];
      assert m[wanted[j]] == expected[j];
    }
    forall i, j | 0 <= i < j < |nodes| ensures nodes[i] != nodes[j] {
      assert keys[i] in Elements(wanted);
      var k :| 0 <= k < |wanted| && wanted[k] == keys[i];
      if nodes[j] == expected[k] {
        IndexIsInjective(m, wanted, expected, keys[j], k);
      }
    }
    forall j | 0 <= j < |expected| ensures expected[j] in Elements(nodes) {
      assert wanted[j] in Elements(keys);
      var i :| 0 <= i < |keys| && keys[i] == wanted[j];
      assert nodes[i] == expected[j];
    }
    assert Elements(nodes) == Elements(expected);
    SameElementsPermute(nodes, expected);
  }

  lemma {:induction false} NoStrangersIffKnown(m: map<JUnitKey, string>, cases: seq<JUnitCase>)
    ensures Strangers(m, cases) == {} <==> AllKnown(m, CaseKeys(cases))
    ensures LookedUp(m, CaseKeys(cases), NodesOf(m, cases))
  {
    forall i | 0 <= i < |cases| && CaseKey(cases[i]) !in m ensures NodeOf(m, cases[i]) in Strangers(m, cases) {
    }
  }

  predicate ExpectedOk(expected: seq<string>) {
    && expected != [] && NoDuplicates(expected) && AllValid(expected) && NoDuplicates(Keys(expected))
  }

  // ---- what the counters and success say of the report itself ----

  ghost function Where(outcomes: seq<Outcome>, o: Outcome): set<int> {
    set i | 0 <= i < |outcomes| && outcomes[i] == o
  }

  lemma {:induction false} WhereStep(outcomes: seq<Outcome>, x: Outcome, o: Outcome)
    ensures Where(outcomes + [x], o) == Where(outcomes, o) + if x == o then {|outcomes|} else {}
  {
    var all := outcomes + [x];
    assert forall i :: 0 <= i < |outcomes| ==> all[i] == outcomes[i];
    assert all[|outcomes|] == x;
  }

  lemma {:induction false} CountIsIndices(outcomes: seq<Outcome>, o: Outcome)
    ensures Count(outcomes, o) == |Where(outcomes, o)|
  {
    if outcomes == [] {
      assert Where(outcomes, o) == {};
    } else {
      var n := |outcomes| - 1;
      var rest, x := outcomes[..n], outcomes[n];
      assert outcomes == rest + [x];
      CountIsIndices(rest, o);
      CountStep(rest, x);
      WhereStep(rest, x, o);
    }
  }

  // The letters agree, whatever the case of the first.
  predicate SameLetter(a: char, lower: char) { a == lower || ('A' <= a <= 'Z' && a as int + 32 == lower as int) }

  predicate Occurs(word: string, text: string, i: nat) {
    i + |word| <= |text| && forall k :: 0 <= k < |word| ==> SameLetter(text[i + k], word[k])
  }

  // The element is there and its text holds the word, in letters of either case.
  predicate Says(text: Option<string>, word: string) {
    text.Some? && exists i :: 0 <= i <= |text.value| && Occurs(word, text.value, i)
  }

  predicate LowerCase(word: string) { forall k :: 0 <= k < |word| ==> !('A' <= word[k] <= 'Z') }

  lemma {:induction false} OccursIffAt(word: string, text: string, i: nat)
    requires LowerCase(word)
    ensures Occurs(word, text, i) <==> At(Lower(text), word, i)
  {
    if i + |word| <= |text| {
      var part := Lower(text)[i..i + |word|];
      assert forall k :: 0 <= k < |word| ==> part[k] == Lower(text)[i + k];
      assert forall k :: 0 <= k < |word| ==> (part[k] == word[k] <==> SameLetter(text[i + k], word[k]));
      assert part == word <==> forall k :: 0 <= k < |word| ==> part[k] == word[k];
    }
  }

  lemma {:induction false} MentionsIffSays(text: Option<string>, word: string)
    requires LowerCase(word)
    ensures Mentions(text, word) <==> Says(text, word)
  {
    if text.Some? {
      forall i: nat ensures Occurs(word, text.value, i) <==> At(Lower(text.value), word, i) {
        OccursIffAt(word, text.value, i);
      }
    }
  }

  // The elements of a case that make it one of each outcome.
  predicate Describes(c: JUnitCase, o: Outcome) {
    match o
    case XPassed => Says(c.failure, "xpass")
    case Failed => c.failure.Some? && !Says(c.failure, "xpass")
    case Errored => c.failure.None? && c.error.Some?
    case XFailed => c.failure.None? && c.error.None? && Says(c.skipped, "xfail")
    case Skipped => c.failure.None? && c.error.None? && c.skipped.Some? && !Says(c.skipped, "xfail")
    case Passed => HasNoElement(c)
  }

  predicate HasNoElement(c: JUnitCase) { c.failure.None? && c.error.None? && c.skipped.None? }

  lemma {:induction false} OutcomeDescribes(c: JUnitCase, o: Outcome)
    ensures Describes(c, o) <==> JUnitOutcome(c) == o
  {
    MentionsIffSays(c.failure, "xpass");
    MentionsIffSays(c.skipped, "xfail");
  }

  ghost function NumberOf(cases: seq<JUnitCase>, o: Outcome): nat {
    |set i | 0 <= i < |cases| && Describes(cases[i], o)|
  }

  // Each counter is the number of cases that its elements describe.
  ghost predicate CountsElements(e: Evidence, cases: seq<JUnitCase>) {
    && e.executed == |cases| && e.passed == NumberOf(cases, Passed) && e.failed == NumberOf(cases, Failed)
    && e.errors == NumberOf(cases, Errored) && e.skipped == NumberOf(cases, Skipped)
    && e.xfailed == NumberOf(cases, XFailed) && e.xpassed == NumberOf(cases, XPassed)
  }

  lemma {:induction false} NumberIsCount(cases: seq<JUnitCase>, o: Outcome)
    ensures NumberOf(cases, o) == Count(CaseOutcomes(cases), o)
  {
    var outcomes := CaseOutcomes(cases);
    forall i | 0 <= i < |cases| ensures Describes(cases[i], o) <==> outcomes[i] == o {
      OutcomeDescribes(cases[i], o);
    }
    assert (set i | 0 <= i < |cases| && Describes(cases[i], o)) == Where(outcomes, o);
    CountIsIndices(outcomes, o);
  }

  lemma {:induction false} TalliesCountElements(e: Evidence, cases: seq<JUnitCase>)
    requires e.Tallies(CaseOutcomes(cases))
    ensures CountsElements(e, cases)
  {
    NumberIsCount(cases, Passed);
    NumberIsCount(cases, Failed);
    NumberIsCount(cases, Errored);
    NumberIsCount(cases, Skipped);
    NumberIsCount(cases, XFailed);
    NumberIsCount(cases, XPassed);
  }

  predicate NoElements(cases: seq<JUnitCase>) { forall i :: 0 <= i < |cases| ==> HasNoElement(cases[i]) }

  lemma {:induction false} PassedIffNoElements(cases: seq<JUnitCase>)
    ensures AllPassed(CaseOutcomes(cases)) <==> NoElements(cases)
  {
    forall i | 0 <= i < |cases| ensures CaseOutcomes(cases)[i] == Passed <==> HasNoElement(cases[i]) {
      OutcomeDescribes(cases[i], Passed);
    }
  }

  // The attributes of a case name a class and a test; an absent attribute names the empty one.
  predicate Names(c: JUnitCase, key: JUnitKey) {
    && (c.classname == Some(key.0) || (c.classname == None && key.0 == ""))
    && (c.name == Some(key.1) || (c.name == None && key.1 == ""))
  }

  predicate NamedOnce(cases: seq<JUnitCase>, keys: seq<JUnitKey>) {
    |cases| == |keys| && forall j :: 0 <= j < |keys| ==> exists i :: 0 <= i < |cases| && Names(cases[i], keys[j])
  }

  // As many cases as distinct expected keys, each of which some case names.
  lemma {:induction false} PermutationIffNamed(cases: seq<JUnitCase>, keys: seq<JUnitKey>)
    requires NoDuplicates(keys)
    ensures multiset(CaseKeys(cases)) == multiset(keys) <==> NamedOnce(cases, keys)
  {
    var actual := CaseKeys(cases);
    ElementsSize(keys);
    ElementsSize(actual);
    if multiset(actual) == multiset(keys) {
      PermutationKeepsNoDuplicates(keys, actual);
      forall j | 0 <= j < |keys| ensures exists i :: 0 <= i < |cases| && Names(cases[i], keys[j]) {
        assert keys[j] in Elements(actual);
        var i :| 0 <= i < |actual| && actual[i] == keys[j];
        assert Names(cases[i], keys[j]);
      }
    }
    if NamedOnce(cases, keys) {
      forall j | 0 <= j < |keys| ensures keys[j] in Elements(actual) {
        var i :| 0 <= i < |cases| && Names(cases[i], keys[j]);
        assert actual[i] == keys[j];
      }
      SubsetOfSameSize(Elements(keys), Elements(actual));
      SameElementsPermute(actual, keys);
    }
  }

  lemma {:induction false} SubsetOfSameSize<T>(a: set<T>, b: set<T>)
    requires a <= b && |b| <= |a|
    ensures a == b
  {
    assert b == a + (b - a) && |b| == |a| + |b - a|;
  }

  // The executed nodes: a case that names an expected key is that node, any other one of its own.
  predicate Resolves(nodes: seq<string>, cases: seq<JUnitCase>, keys: seq<JUnitKey>, expected: seq<string>)
    requires |keys| == |expected|
  {
    && |nodes| == |cases|
    && (forall i, j :: 0 <= i < |cases| && 0 <= j < |keys| && Names(cases[i], keys[j]) ==> nodes[i] == expected[j])
    && (forall i :: 0 <= i < |cases| ==> Known(cases[i], keys) || IsStranger(nodes[i], cases[i]))
  }

  predicate Known(c: JUnitCase, keys: seq<JUnitKey>) { exists j :: 0 <= j < |keys| && Names(c, keys[j]) }

  predicate IsStranger(node: string, c: JUnitCase) {
    c.classname.Some? && c.name.Some? ==> node == "junit:" + c.classname.value + "::" + c.name.value
  }

  lemma {:induction false} LookupResolves(m: map<JUnitKey, string>, cases: seq<JUnitCase>, expected: seq<string>)
    requires AllValid(expected) && IsIndex(m, expected)
    ensures Resolves(NodesOf(m, cases), cases, Keys(expected), expected)
  {
    var keys, nodes := Keys(expected), NodesOf(m, cases);
    forall i, j | 0 <= i < |cases| && 0 <= j < |keys| && Names(cases[i], keys[j]) ensures nodes[i] == expected[j] {
      assert CaseKey(cases[i]) == keys[j];
    }
    forall i | 0 <= i < |cases| ensures Known(cases[i], keys) || IsStranger(nodes[i], cases[i]) {
      if CaseKey(cases[i]) in m {
        assert CaseKey(cases[i]) in Elements(keys);
        var j :| 0 <= j < |keys| && keys[j] == CaseKey(cases[i]);
        assert Names(cases[i], keys[j]);
      }
    }
  }

  /**
    Parsing refuses exactly the empty, duplicated, invalid or ambiguous expectations. Otherwise
    the six counters partition the executed cases by their elements, and success holds exactly
    when there are as many cases as expected tests, some case names each of them, and no case
    has a failure, error or skipped element.
   */
  method ParseJUnit(expectedNodes: seq<string>, cases: seq<JUnitCase>) returns (r: Result<Evidence, JUnitError>)
    ensures r.Ok? <==> ExpectedOk(Normalized(expectedNodes))
    ensures r.Err? ==>
              (r.error == EmptyOrDuplicated <==> expectedNodes == [] || !NoDuplicates(Normalized(expectedNodes)))
    ensures r.Ok? ==>
              && r.value.Tallies(CaseOutcomes(cases)) && CountsElements(r.value, cases)
              && r.value.collected == |expectedNodes|
              && (r.value.IsSuccess() <==> NamedOnce(cases, Keys(Normalized(expectedNodes))) && NoElements(cases))
              && Resolves(r.value.nodes, cases, Keys(Normalized(expectedNodes)), Normalized(expectedNodes))
              && r.value.missing == Sorted(Elements(Normalized(expectedNodes)) - Elements(r.value.nodes))
              && r.value.deselected == |r.value.missing|
  {
    var expected := Normalized(expectedNodes);
    ElementsSize(expected);
    if expected == [] || |expected| != |Elements(expected)| {
      return Err(EmptyOrDuplicated);
    }
    var index := BuildIndex(expected);
    if index.Err? {
      return Err(index.error);
    }
    var actual, strangers, t := ReadCases(index.value, cases);
    var e := Conclude(expected, actual, strangers, t);
    JUnitSucceedsIff(e, index.value, expected, cases);
    LookupResolves(index.value, cases, expected);
    return Ok(e);
  }

  lemma {:induction false} JUnitSucceedsIff(
    e: Evidence, m: map<JUnitKey, string>, expected: seq<string>, cases: seq<JUnitCase>)
    requires ExpectedOk(expected) && IsIndex(m, expected)
    requires e.collected == |expected| && e.executed == |cases|
    requires Counts(Tally(e.passed, e.failed, e.errors, e.skipped, e.xfailed, e.xpassed), CaseOutcomes(cases))
    requires e.deselected == |Sorted(Elements(expected) - Elements(NodesOf(m, cases)))|
    requires e.unexpected
             == |Sorted(Strangers(m, cases) + (Elements(NodesOf(m, cases)) - Elements(expected)))|
                + Duplicates(NodesOf(m, cases))
    ensures e.Tallies(CaseOutcomes(cases)) && CountsElements(e, cases)
    ensures e.IsSuccess() <==> NamedOnce(cases, Keys(expected)) && NoElements(cases)
  {
    var actual, strangers := NodesOf(m, cases), Strangers(m, cases);
    OutcomesPartition(CaseOutcomes(cases));
    ConcludedSuccess(e, expected, actual, strangers, CaseOutcomes(cases));
    NoStrangersIffKnown(m, cases);
    KeysPermuteIff(m, Keys(expected), expected, CaseKeys(cases), actual);
    PermutationIffNamed(cases, Keys(expected));
    PassedIffNoElements(cases);
    TalliesCountElements(e, cases);
  }

  // A part of a node id without separators.
  predicate Plain(s: string) { forall i :: 0 <= i < |s| ==> s[i] !in {':', '/', '\\', '.'} }

  function Nested(file: string, cls: string, name: string): string { file + ".py" + "::" + (cls + "::" + name) }

  function Flat(dir: string, file: string, name: string): string { dir + "/" + file + ".py" + "::" + name }

  /**
    A test in a class and a test in a file of that name share a JUnit identity; an expectation of
    both is refused.
   */
  lemma {:induction false} KeysCanCollide(a: string, b: string, name: string)
    requires Plain(a) && Plain(b) && Plain(name)
    ensures Nested(a, b, name) != Flat(a, b, name)
    ensures Key(Nested(a, b, name)) == Key(Flat(a, b, name)) == Some((a + "." + b, name))
    ensures !ExpectedOk([Nested(a, b, name), Flat(a, b, name)])
  {
    assert Nested(a, b, name)[|a|] == '.' && Flat(a, b, name)[|a|] == '/';
    KeyOfNested(a, b, name);
    KeyOfFlat(a, b, name);
    var nodes := [Nested(a, b, name), Flat(a, b, name)];
    if AllValid(nodes) {
      assert Keys(nodes)[0] == Keys(nodes)[1];
    }
  }

  lemma {:induction false} SplitPlain(s: string)
    requires Plain(s)
    ensures Split(s, "::") == [s]
  {
    forall j | 0 <= j && j + 2 <= |s| ensures !At(s, "::", j) {
      assert s[j..j + 2][0] == s[j];
    }
  }

  lemma {:induction false} SplitAfter(a: string, rest: string)
    requires forall i :: 0 <= i < |a| ==> a[i] != ':'
    ensures Split(a + "::" + rest, "::") == [a] + Split(rest, "::")
  {
    var s := a + "::" + rest;
    assert s[|a|..|a| + 2] == "::" && forall j :: 0 <= j < |a| ==> s[j] == a[j];
    FindFirst(s, "::", |a|);
    assert s[..|a|] == a && s[|a| + 2..] == rest;
  }

  lemma {:induction false} NoFilePart(s: string)
    requires forall i :: 0 <= i < |s| ==> s[i] != '.'
    ensures Normalize(s) == s
  {
    forall j | 0 <= j && j + 5 <= |s| ensures !At(s, MODULE_END, j) {
      assert s[j..j + 5][0] == s[j];
    }
  }

  /** An id without a double colon, or whose first part is not a Python file, has no JUnit identity. */
  lemma {:induction false} KeyRefuses(file: string, rest: string)
    requires Plain(file) && Plain(rest)
    ensures Key(file) == None && Key(file + "::" + rest) == None
  {
    SplitPlain(file);
    SplitAfter(file, rest);
    NoFilePart(file);
    NoFilePart(file + "::" + rest);
    assert 3 <= |file| ==> file[|file| - 3..][0] == file[|file| - 3] != '.';
  }

  // The file part ends with the first dot, and holds no backslash.
  lemma {:induction false} NormalizedAlready(file: string, rest: string)
    requires forall i :: 0 <= i < |file| ==> file[i] !in {'\\', '.'}
    ensures Normalize(file + MODULE_END + rest) == file + MODULE_END + rest
  {
    var s := file + MODULE_END + rest;
    assert s[|file|..|file| + 5] == MODULE_END && forall j :: 0 <= j < |file| ==> s[j] == file[j];
    FindFirst(s, MODULE_END, |file|);
    assert s[..|file|] == file && Replace(file, '\\', '/') == file && file + s[|file|..] == s;
  }

  lemma {:induction false} KeyFromParts(node: string, parts: seq<string>, file: string)
    requires Normalize(node) == node && Split(node, "::") == parts && |parts| >= 2
    requires parts[0] == file + ".py"
    ensures Key(node) == Some((Join([Replace(file, '/', '.')] + parts[1..|parts| - 1], "."), parts[|parts| - 1]))
  {
    assert parts[0][..|file|] == file && parts[0][|file|..] == ".py";
  }

  lemma {:induction false} KeyOfNested(file: string, cls: string, name: string)
    requires Plain(file) && Plain(cls) && Plain(name)
    ensures Key(Nested(file, cls, name)) == Some((file + "." + cls, name))
  {
    var node := Nested(file, cls, name);
    assert node == file + MODULE_END + (cls + "::" + name);
    NormalizedAlready(file, cls + "::" + name);
    SplitAfter(file + ".py", cls + "::" + name);
    SplitAfter(cls, name);
    SplitPlain(name);
    var parts := [file + ".py", cls, name];
    KeyFromParts(node, parts, file);
    assert Replace(file, '/', '.') == file && [file] + parts[1..2] == [file, cls] && [file, cls][1..] == [cls];
  }

  lemma {:induction false} KeyOfFlat(dir: string, file: string, name: string)
    requires Plain(dir) && Plain(file) && Plain(name)
    ensures Key(Flat(dir, file, name)) == Some((dir + "." + file, name))
  {
    var node, path := Flat(dir, file, name), dir + "/" + file;
    assert node == path + MODULE_END + name && node == path + ".py" + "::" + name;
    NormalizedAlready(path, name);
    SplitAfter(path + ".py", name);
    SplitPlain(name);
    var parts := [path + ".py", name];
    KeyFromParts(node, parts, path);
    assert Replace(path, '/', '.') == dir + "." + file;
    assert [dir + "." + file] + parts[1..1] == [dir + "." + file];
  }

  // ---- Vitest ----

  datatype Assertion = Assertion(ancestors: Option<seq<string>>, title: Option<string>, status: string)

  datatype Suite = Suite(relative: Option<string>, assertions: Option<seq<Assertion>>)

  datatype VitestError = InvalidPath | NoAssertions | InvalidIdentity | DuplicateExpected

  predicate AssertionOk(a: Assertion) {
    && a.ancestors.Some? && a.title.Some? && a.title.value != ""
    && forall i :: 0 <= i < |a.ancestors.value| ==> a.ancestors.value[i] != ""
  }

  predicate SuiteOk(s: Suite) {
    && s.relative.Some? && s.assertions.Some?
    && forall i :: 0 <= i < |s.assertions.value| ==> AssertionOk(s.assertions.value[i])
  }

  predicate Nameless(a: Assertion) {
    || a.title in {None, Some("")} || a.ancestors == None
    || (a.ancestors.Some? && exists i :: 0 <= i < |a.ancestors.value| && a.ancestors.value[i] == "")
  }

  /** A suite is unreadable exactly for a path outside the project, no assertion list or a nameless assertion. */
  lemma {:induction false} UnreadableIff(s: Suite)
    ensures !SuiteOk(s) <==>
            || s.relative == None || s.assertions == None
            || exists i :: 0 <= i < |s.assertions.value| && Nameless(s.assertions.value[i])
  {
    if s.assertions.Some? {
      forall i | 0 <= i < |s.assertions.value|
        ensures Nameless(s.assertions.value[i]) <==> !AssertionOk(s.assertions.value[i])
      {
      }
    }
  }

  function AssertionNode(relative: string, a: Assertion): string
    requires AssertionOk(a)
  {
    relative + "::" + Join(a.ancestors.value + [a.title.value], " > ")
  }

  function StatusOutcome(status: string): Outcome {
    if status == "passed" then Passed
    else if status in {"pending", "skipped", "todo"} then Skipped
    else Failed
  }

  function SuiteNodes(s: Suite): (r: seq<string>)
    requires SuiteOk(s)
    ensures |r| == |s.assertions.value|
  {
    seq(|s.assertions.value|,
      i requires 0 <= i < |s.assertions.value| => AssertionNode(s.relative.value, s.assertions.value[i]))
  }

  function SuiteOutcomes(s: Suite): (r: seq<Outcome>)
    requires SuiteOk(s)
    ensures |r| == |s.assertions.value|
  {
    seq(|s.assertions.value|, i requires 0 <= i < |s.assertions.value| => StatusOutcome(s.assertions.value[i].status))
  }

  predicate SuitesOk(suites: seq<Suite>) { forall i :: 0 <= i < |suites| ==> SuiteOk(suites[i]) }

  // The executed tests, in order, and their outcomes.
  function Executed(suites: seq<Suite>): seq<string>
    requires SuitesOk(suites)
  {
    if suites == [] then [] else Executed(suites[..|suites| - 1]) + SuiteNodes(suites[|suites| - 1])
  }

  function Outcomes(suites: seq<Suite>): seq<Outcome>
    requires SuitesOk(suites)
  {
    if suites == [] then [] else Outcomes(suites[..|suites| - 1]) + SuiteOutcomes(suites[|suites| - 1])
  }

  lemma {:induction false} ExecutedStep(suites: seq<Suite>, s: Suite)
    requires SuitesOk(suites) && SuiteOk(s)
    ensures SuitesOk(suites + [s])
    ensures Executed(suites + [s]) == Executed(suites) + SuiteNodes(s)
    ensures Outcomes(suites + [s]) == Outcomes(suites) + SuiteOutcomes(s)
  {
    assert (suites + [s])[..|suites|] == suites;
  }

  lemma {:induction false} ExecutedOutcomes(suites: seq<Suite>)
    requires SuitesOk(suites)
    ensures |Executed(suites)| == |Outcomes(suites)|
  {
    if suites != [] {
      ExecutedOutcomes(suites[..|suites| - 1]);
    }
  }

  /** Every assertion is among the executed tests, under its file and its titles. */
  lemma {:induction false} EveryAssertionIsExecuted(suites: seq<Suite>, k: nat, i: nat)
    requires SuitesOk(suites) && k < |suites| && i < |suites[k].assertions.value|
    ensures var file, a := suites[k].relative.value, suites[k].assertions.value[i];
            && (a.ancestors.value == [] ==> file + "::" + a.title.value in Executed(suites))
            && (forall outer :: a.ancestors.value == [outer] ==>
                                  file + "::" + (outer + " > " + a.title.value) in Executed(suites))
  {
    var n, a := |suites| - 1, suites[k].assertions.value[i];
    if k == n {
      assert SuiteNodes(suites[k])[i] == AssertionNode(suites[k].relative.value, a);
      assert SuiteNodes(suites[k])[i] in Executed(suites);
      forall outer | a.ancestors.value == [outer]
        ensures Join(a.ancestors.value + [a.title.value], " > ") == outer + " > " + a.title.value
      {
        assert ([outer] + [a.title.value])[1..] == [a.title.value];
      }
    } else {
      EveryAssertionIsExecuted(suites[..n], k, i);
    }
  }

  // A suite cut after its first n assertions.
  ghost function Cut(s: Suite, n: nat): Suite
    requires s.assertions.Some? && n <= |s.assertions.value|
  {
    Suite(s.relative, Some(s.assertions.value[..n]))
  }

  lemma {:induction false} SuiteStep(s: Suite, n: nat, outcomes: seq<Outcome>, t: Tally)
    requires s.assertions.Some? && n < |s.assertions.value| && SuiteOk(Cut(s, n)) && AssertionOk(s.assertions.value[n])
    requires Counts(t, outcomes + SuiteOutcomes(Cut(s, n)))
    ensures SuiteOk(Cut(s, n + 1))
    ensures SuiteNodes(Cut(s, n + 1))
            == SuiteNodes(Cut(s, n)) + [AssertionNode(s.relative.value, s.assertions.value[n])]
    ensures Counts(Add(t, StatusOutcome(s.assertions.value[n].status)), outcomes + SuiteOutcomes(Cut(s, n + 1)))
  {
    var outcome := StatusOutcome(s.assertions.value[n].status);
    CutStep(s, n);
    AddCounts(t, outcomes + SuiteOutcomes(Cut(s, n)), outcome);
    assert outcomes + (SuiteOutcomes(Cut(s, n)) + [outcome]) == (outcomes + SuiteOutcomes(Cut(s, n))) + [outcome];
  }

  lemma {:induction false} CutStep(s: Suite, n: nat)
    requires s.assertions.Some? && n < |s.assertions.value| && SuiteOk(Cut(s, n)) && AssertionOk(s.assertions.value[n])
    ensures SuiteOk(Cut(s, n + 1))
    ensures SuiteNodes(Cut(s, n + 1))
            == SuiteNodes(Cut(s, n)) + [AssertionNode(s.relative.value, s.assertions.value[n])]
    ensures SuiteOutcomes(Cut(s, n + 1)) == SuiteOutcomes(Cut(s, n)) + [StatusOutcome(s.assertions.value[n].status)]
  {
    var before, after := Cut(s, n).assertions.value, Cut(s, n + 1).assertions.value;
    assert forall i :: 0 <= i < n ==> after[i] == before[i];
    assert after[n] == s.assertions.value[n];
  }

  method ReadSuite(s: Suite, actual: seq<string>, t: Tally, ghost outcomes: seq<Outcome>)
    returns (r: Result<(seq<string>, Tally), VitestError>)
    requires Counts(t, outcomes)
    ensures r.Ok? <==> SuiteOk(s)
    ensures r.Ok? ==> r.value.0 == actual + SuiteNodes(s) && Counts(r.value.1, outcomes + SuiteOutcomes(s))
    ensures r.Err? ==> r.error != DuplicateExpected
  {
    if s.relative.None? { return Err(InvalidPath); }
    if s.assertions.None? { return Err(NoAssertions); }
    var assertions := s.assertions.value;
    var nodes, tally := actual, t;
    for i := 0 to |assertions|
      invariant SuiteOk(Cut(s, i))
      invariant nodes == actual + SuiteNodes(Cut(s, i))
      invariant Counts(tally, outcomes + SuiteOutcomes(Cut(s, i)))
    {
      if !AssertionOk(assertions[i]) { return Err(InvalidIdentity); }
      SuiteStep(s, i, outcomes, tally);
      var node, outcome := AssertionNode(s.relative.value, assertions[i]), StatusOutcome(assertions[i].status);
      nodes := nodes + [node];
      tally := Add(tally, outcome);
    }
    assert assertions[..|assertions|] == assertions;
    return Ok((nodes, tally));
  }

  method ReadSuites(suites: seq<Suite>) returns (r: Result<(seq<string>, Tally), VitestError>)
    ensures r.Ok? <==> SuitesOk(suites)
    ensures r.Ok? ==> r.value.0 == Executed(suites) && Counts(r.value.1, Outcomes(suites))
    ensures r.Err? ==> r.error != DuplicateExpected
  {
    var nodes, tally := [], Tally(0, 0, 0, 0, 0, 0);
    for i := 0 to |suites|
      invariant SuitesOk(suites[..i])
      invariant nodes == Executed(suites[..i]) && Counts(tally, Outcomes(suites[..i]))
    {
      var next := ReadSuite(suites[i], nodes, tally, Outcomes(suites[..i]));
      if next.Err? { return Err(next.error); }
      PrefixStep(suites, i);
      ExecutedStep(suites[..i], suites[i]);
      nodes, tally := next.value.0, next.value.1;
    }
    assert suites[..|suites|] == suites;
    return Ok((nodes, tally));
  }

  // The raw status strings, in order.
  function SuiteStatuses(s: Suite): (r: seq<string>)
    requires SuiteOk(s)
    ensures |r| == |s.assertions.value| && forall i :: 0 <= i < |r| ==> r[i] == s.assertions.value[i].status
  {
    seq(|s.assertions.value|, i requires 0 <= i < |s.assertions.value| => s.assertions.value[i].status)
  }

  function Statuses(suites: seq<Suite>): seq<string>
    requires SuitesOk(suites)
  {
    if suites == [] then [] else Statuses(suites[..|suites| - 1]) + SuiteStatuses(suites[|suites| - 1])
  }

  ghost function StatusesIn(statuses: seq<string>, wanted: set<string>): set<int> {
    set i | 0 <= i < |statuses| && statuses[i] in wanted
  }

  // A test passed if its status is "passed", was skipped if it did not run, and failed otherwise.
  ghost predicate CountsStatuses(e: Evidence, statuses: seq<string>) {
    && e.executed == |statuses| && e.passed == |StatusesIn(statuses, {"passed"})|
    && e.skipped == |StatusesIn(statuses, {"pending", "skipped", "todo"})|
    && e.failed == |statuses| - e.passed - e.skipped
    && e.errors == 0 && e.xfailed == 0 && e.xpassed == 0
  }

  predicate EachPassed(statuses: seq<string>) { forall i :: 0 <= i < |statuses| ==> statuses[i] == "passed" }

  predicate OutcomesOf(statuses: seq<string>, outcomes: seq<Outcome>) {
    && |statuses| == |outcomes|
    && forall i :: 0 <= i < |statuses| ==> outcomes[i] == StatusOutcome(statuses[i])
  }

  lemma {:induction false} OutcomesAreOfStatuses(suites: seq<Suite>)
    requires SuitesOk(suites)
    ensures OutcomesOf(Statuses(suites), Outcomes(suites))
  {
    if suites != [] {
      OutcomesAreOfStatuses(suites[..|suites| - 1]);
    }
  }

  lemma {:induction false} OnlyThreeOutcomes(statuses: seq<string>, outcomes: seq<Outcome>)
    requires OutcomesOf(statuses, outcomes)
    ensures Where(outcomes, Passed) == StatusesIn(statuses, {"passed"})
    ensures Where(outcomes, Skipped) == StatusesIn(statuses, {"pending", "skipped", "todo"})
    ensures Where(outcomes, Errored) == Where(outcomes, XFailed) == Where(outcomes, XPassed) == {}
    ensures AllPassed(outcomes) <==> EachPassed(statuses)
  {
  }

  lemma {:induction false} TalliesCountStatuses(e: Evidence, statuses: seq<string>, outcomes: seq<Outcome>)
    requires e.Tallies(outcomes) && OutcomesOf(statuses, outcomes)
    ensures CountsStatuses(e, statuses) && (AllPassed(outcomes) <==> EachPassed(statuses))
  {
    OnlyThreeOutcomes(statuses, outcomes);
    CountIsIndices(outcomes, Passed);
    CountIsIndices(outcomes, Skipped);
    CountIsIndices(outcomes, Errored);
    CountIsIndices(outcomes, XFailed);
    CountIsIndices(outcomes, XPassed);
  }

  /** The Vitest form: success exactly for a permutation of the expected nodes, all of status "passed". */
  method ParseVitest(expected: seq<string>, suites: seq<Suite>) returns (r: Result<Evidence, VitestError>)
    ensures r.Ok? <==> SuitesOk(suites) && NoDuplicates(expected)
    ensures r.Err? ==> (r.error == DuplicateExpected <==> SuitesOk(suites))
    ensures r.Ok? ==>
              && r.value.Tallies(Outcomes(suites)) && CountsStatuses(r.value, Statuses(suites))
              && r.value.nodes == Executed(suites)
              && (r.value.IsSuccess() <==>
                    expected != [] && multiset(Executed(suites)) == multiset(expected) && EachPassed(Statuses(suites)))
              && r.value.missing == Sorted(Elements(expected) - Elements(r.value.nodes))
              && r.value.unexpectedNodes == Sorted(Elements(r.value.nodes) - Elements(expected))
  {
    var read := ReadSuites(suites);
    if read.Err? { return Err(read.error); }
    ElementsSize(expected);
    if |expected| != |Elements(expected)| { return Err(DuplicateExpected); }
    var e := Conclude(expected, read.value.0, {}, read.value.1);
    assert {} + (Elements(e.nodes) - Elements(expected)) == Elements(e.nodes) - Elements(expected);
    OutcomesPartition(Outcomes(suites));
    ExecutedOutcomes(suites);
    ConcludedSuccess(e, expected, read.value.0, {}, Outcomes(suites));
    OutcomesAreOfStatuses(suites);
    TalliesCountStatuses(e, Statuses(suites), Outcomes(suites));
    return Ok(e);
  }
}
