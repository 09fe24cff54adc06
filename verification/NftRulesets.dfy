/**
  Whole nftables rulesets: which ones the controlled-egress check
  (scripts/collect_offline_runtime_evidence.py) accepts, and what the kernel does with a packet
  under an accepted one, read from the ruleset itself.
 */
module NftRulesets {
  import opened Common
  import opened Json
  import opened Sequences
  import opened NftPolicy

  // ---- reading a ruleset ----

  predicate Named(entry: Json, kind: string, names: map<string, string>) {
    var found := Field(entry, kind);
    found.Some? && found.value.Obj? && forall k :: k in names ==> Field(found.value, k) == Some(Str(names[k]))
  }

  predicate OurTable(entry: Json) { Named(entry, "table", map["family" := "inet", "name" := "heyi_kb_egress"]) }

  predicate OurChain(entry: Json) {
    Named(entry, "chain",
          map["family" := "inet", "table" := "heyi_kb_egress", "name" := "heyi_llm_egress_forward"])
  }

  predicate OurRule(entry: Json) {
    Named(entry, "rule",
          map["family" := "inet", "table" := "heyi_kb_egress", "chain" := "heyi_llm_egress_forward"])
  }

  lemma {:induction false} SameSelections(entry: Json)
    ensures IsTable(entry) <==> OurTable(entry)
    ensures IsChain(entry) <==> OurChain(entry)
    ensures IsRule(entry) <==> OurRule(entry)
  {
    var table := map["family" := "inet", "name" := "heyi_kb_egress"];
    var chain := map["family" := "inet", "table" := "heyi_kb_egress", "name" := "heyi_llm_egress_forward"];
    var rule := map["family" := "inet", "table" := "heyi_kb_egress", "chain" := "heyi_llm_egress_forward"];
    assert table["family"] == "inet" && table["name"] == "heyi_kb_egress";
    assert chain["family"] == "inet" && chain["table"] == "heyi_kb_egress";
    assert chain["name"] == "heyi_llm_egress_forward";
    assert rule["family"] == "inet" && rule["table"] == "heyi_kb_egress";
    assert rule["chain"] == "heyi_llm_egress_forward";
  }

  // Exactly one entry satisfies the predicate, and it is the k-th.
  predicate OnlyAt(entries: seq<Json>, p: Json -> bool, k: nat) {
    k < |entries| && p(entries[k]) && forall j :: 0 <= j < |entries| && j != k ==> !p(entries[j])
  }

  lemma {:induction false} NoneFiltered(entries: seq<Json>, p: Json -> bool)
    ensures Filter(entries, p) == [] <==> forall j :: 0 <= j < |entries| ==> !p(entries[j])
  {
    if entries != [] {
      NoneFiltered(entries[1..], p);
      assert forall j :: 0 < j < |entries| ==> entries[j] == entries[1..][j - 1];
    }
  }

  lemma {:induction false} OneFiltered(entries: seq<Json>, p: Json -> bool) returns (k: nat)
    requires |Filter(entries, p)| == 1
    ensures OnlyAt(entries, p, k) && Filter(entries, p) == [entries[k]]
  {
    var rest := entries[1..];
    assert forall j :: 0 < j < |entries| ==> entries[j] == rest[j - 1];
    if p(entries[0]) {
      k := 0;
      assert Filter(entries, p) == [entries[0]] + Filter(rest, p);
      NoneFiltered(rest, p);
    } else {
      assert Filter(entries, p) == [] + Filter(rest, p) == Filter(rest, p);
      var i := OneFiltered(rest, p);
      k := i + 1;
    }
  }

  lemma {:induction false} OnlyAtFilters(entries: seq<Json>, p: Json -> bool, k: nat)
    requires OnlyAt(entries, p, k)
    ensures Filter(entries, p) == [entries[k]]
  {
    var rest := entries[1..];
    assert forall j :: 0 < j < |entries| ==> entries[j] == rest[j - 1];
    if k == 0 {
      NoneFiltered(rest, p);
    } else {
      OnlyAtFilters(rest, p, k - 1);
    }
  }

  // The rules of the chain in ruleset order.
  function Rules(entries: seq<Json>): seq<Json> {
    if entries == [] then []
    else if OurRule(entries[0]) then [entries[0].fields["rule"]] + Rules(entries[1..])
    else Rules(entries[1..])
  }

  lemma {:induction false} RulesAreChainRules(entries: seq<Json>)
    ensures ChainRules(entries) == Rules(entries)
  {
    if entries != [] {
      RulesAreChainRules(entries[1..]);
      SameSelections(entries[0]);
      var rest := Filter(entries[1..], IsRule);
      if IsRule(entries[0]) {
        assert Filter(entries, IsRule) == [entries[0]] + rest;
        assert ChainRules(entries) == [RuleOf(entries[0])] + ChainRules(entries[1..]);
      } else {
        assert Filter(entries, IsRule) == rest;
      }
    }
  }

  // ---- what the kernel does with a packet ----

  function Policy(entries: seq<Json>): Option<Json> {
    if entries == [] then None
    else if OurChain(entries[0]) then Field(entries[0].fields["chain"], "policy")
    else Policy(entries[1..])
  }

  // A packet that no rule decides meets the policy that the chain was created with.
  function Fate(text: AddressText, entries: seq<Json>, p: Packet): Effect {
    match ChainVerdict(text, InstalledRules(Rules(entries)), p)
    case Pass =>
      (match Policy(entries)
       case Some(Str("accept")) => Accepts
       case Some(Str("drop")) => Drops
       case _ => Unknown)
    case other => other
  }

  // A filter chain on the forward hook at priority -5 that accepts by default.
  predicate BaseChain(chain: Json) {
    && chain.Obj? && {"family", "handle", "hook", "name", "policy", "prio", "table", "type"} <= chain.fields.Keys
    && Field(chain, "type") == Some(Str("filter")) && Field(chain, "hook") == Some(Str("forward"))
    && Field(chain, "prio") in {Some(Int(-5)), Some(Float(-5.0))}
    && Field(chain, "policy") == Some(Str("accept"))
    && Positive(Field(chain, "handle"))
  }

  lemma {:induction false} PolicyOfOnlyChain(entries: seq<Json>, k: nat)
    requires OnlyAt(entries, OurChain, k)
    ensures Policy(entries) == Field(entries[k].fields["chain"], "policy")
  {
    if k > 0 {
      PolicyOfOnlyChain(entries[1..], k - 1);
    }
  }

  // ---- which rulesets are accepted ----

  predicate HasOneTable(entries: seq<Json>) { exists k :: 0 <= k < |entries| && OnlyAt(entries, OurTable, k) }

  predicate HasOneBaseChain(entries: seq<Json>) {
    exists k :: 0 <= k < |entries| && OnlyAt(entries, OurChain, k) && BaseChain(entries[k].fields["chain"])
  }

  lemma {:induction false} SameFilters(entries: seq<Json>)
    ensures Filter(entries, IsTable) == Filter(entries, OurTable)
    ensures Filter(entries, IsChain) == Filter(entries, OurChain)
  {
    if entries != [] {
      SameSelections(entries[0]);
      SameFilters(entries[1..]);
    }
  }

  lemma {:induction false} OneTableIff(entries: seq<Json>)
    ensures |Filter(entries, IsTable)| == 1 <==> HasOneTable(entries)
  {
    SameFilters(entries);
    if |Filter(entries, IsTable)| == 1 {
      var k := OneFiltered(entries, OurTable);
    }
    if HasOneTable(entries) {
      var k :| 0 <= k < |entries| && OnlyAt(entries, OurTable, k);
      OnlyAtFilters(entries, OurTable, k);
    }
  }

  predicate ChainChecked(entries: seq<Json>) {
    var chains := Filter(entries, IsChain);
    |chains| == 1 && ChainOk(chains[0].fields["chain"])
  }

  lemma {:induction false} OneBaseChainIff(entries: seq<Json>)
    ensures ChainChecked(entries) <==> HasOneBaseChain(entries)
  {
    SameFilters(entries);
    if ChainChecked(entries) {
      var k := OneFiltered(entries, OurChain);
      assert BaseChain(entries[k].fields["chain"]);
    }
    if HasOneBaseChain(entries) {
      var k :| 0 <= k < |entries| && OnlyAt(entries, OurChain, k) && BaseChain(entries[k].fields["chain"]);
      OnlyAtFilters(entries, OurChain, k);
      SameSelections(entries[k]);
    }
  }

  // A rule with exactly the six members, of which the expressions without counters are the given ones.
  predicate Carries(rule: Json, exprs: seq<Json>) {
    && rule.Obj? && rule.fields.Keys == {"chain", "comment", "expr", "family", "handle", "table"}
    && Field(rule, "family") == Some(Str("inet")) && Field(rule, "table") == Some(Str("heyi_kb_egress"))
    && Field(rule, "chain") == Some(Str("heyi_llm_egress_forward"))
    && Field(rule, "comment") == Some(Str("heyi-controlled-egress"))
    && Positive(Field(rule, "handle"))
    && rule.fields["expr"].Arr? && CounterFree(rule.fields["expr"].items) == Some(exprs)
  }

  // One accept rule for each destination, in the given order, and the drop rule at the end.
  predicate Enforces(text: AddressText, interface: string, rules: seq<Json>, order: seq<Destination>) {
    && |rules| == |order| + 1
    && (forall i :: 0 <= i < |order| ==> Carries(rules[i], ExpectedAccept(text, interface, order[i])))
    && Carries(rules[|order|], ExpectedDrop(interface))
  }

  lemma {:induction false} EnforcingIsReadable(
    text: AddressText, interface: string, rules: seq<Json>, order: seq<Destination>)
    requires Enforces(text, interface, rules, order)
    ensures Readable(rules)
    ensures CounterFreeRules(rules)[..|order|] == ExpectedAccepts(text, interface, order)
    ensures CounterFreeRules(rules)[|order|] == ExpectedDrop(interface)
  {
    forall i | 0 <= i < |rules| ensures EnvelopeOk(rules[i]) && RuleExpressions(rules[i]).Some? {
      assert Carries(rules[i], if i < |order| then ExpectedAccept(text, interface, order[i])
                               else ExpectedDrop(interface));
    }
    assert CounterFreeRules(rules)[..|order|] == ExpectedAccepts(text, interface, order);
  }

  lemma {:induction false} ReorderedAccepts(
    text: AddressText, interface: string, order: seq<Destination>, destinations: seq<Destination>)
    requires multiset(order) == multiset(destinations)
    ensures Elements(ExpectedAccepts(text, interface, order))
            == Elements(ExpectedAccepts(text, interface, destinations))
  {
    AcceptsFollow(text, interface, order, destinations);
    AcceptsFollow(text, interface, destinations, order);
  }

  lemma {:induction false} AcceptsFollow(text: AddressText, interface: string, a: seq<Destination>, b: seq<Destination>)
    requires multiset(a) == multiset(b)
    ensures Elements(ExpectedAccepts(text, interface, a)) <= Elements(ExpectedAccepts(text, interface, b))
  {
    var xs, ys := ExpectedAccepts(text, interface, a), ExpectedAccepts(text, interface, b);
    forall x | x in Elements(xs) ensures x in Elements(ys) {
      var i :| 0 <= i < |xs| && xs[i] == x;
      assert a[i] in multiset(b);
      var j :| 0 <= j < |b| && b[j] == a[i];
      assert ys[j] == x;
    }
  }

  lemma {:induction false} DistinctAccepts(text: AddressText, interface: string, order: seq<Destination>)
    requires Injective(text) && NoDuplicates(order)
    requires forall i :: 0 <= i < |order| ==> order[i].network.Valid()
    ensures NoDuplicates(ExpectedAccepts(text, interface, order))
  {
    var accepts := ExpectedAccepts(text, interface, order);
    forall i, j | 0 <= i < j < |accepts| ensures accepts[i] != accepts[j] {
      if accepts[i] == accepts[j] {
        ExpectedAcceptInjective(text, interface, order[i], order[j]);
      }
    }
  }

  predicate AllNetworksValid(destinations: seq<Destination>) {
    forall i :: 0 <= i < |destinations| ==> destinations[i].network.Valid()
  }

  /**
    Every ruleset with one such table, one such base chain and, in any order, the accept rules of
    distinct destinations followed by the drop rule is accepted, whatever else it holds.
   */
  lemma {:induction false} CorrectRulesetIsAccepted(
    text: AddressText, interface: string, entries: seq<Json>, destinations: seq<Destination>, order: seq<Destination>)
    requires Injective(text) && NoDuplicates(destinations) && AllNetworksValid(destinations)
    requires HasOneTable(entries) && HasOneBaseChain(entries)
    requires multiset(order) == multiset(destinations) && Enforces(text, interface, Rules(entries), order)
    ensures Accepted(text, Some(interface), Some(Arr(entries)), destinations)
  {
    OneTableIff(entries);
    OneBaseChainIff(entries);
    RulesAreChainRules(entries);
    EnforcingAreExact(text, interface, Rules(entries), destinations, order);
  }

  lemma {:induction false} EnforcingAreExact(
    text: AddressText, interface: string, rules: seq<Json>, destinations: seq<Destination>, order: seq<Destination>)
    requires Injective(text) && NoDuplicates(destinations) && AllNetworksValid(destinations)
    requires multiset(order) == multiset(destinations) && Enforces(text, interface, rules, order)
    ensures ExactRules(text, interface, rules, destinations)
  {
    PermutationKeepsNoDuplicates(destinations, order);
    forall i | 0 <= i < |order| ensures order[i].network.Valid() {
      assert order[i] in Elements(destinations);
    }
    EnforcingIsReadable(text, interface, rules, order);
    DistinctAccepts(text, interface, order);
    ElementsSize(ExpectedAccepts(text, interface, order));
    ReorderedAccepts(text, interface, order, destinations);
  }

  /** An accepted ruleset has one such table and one such base chain, and it enforces the destinations in some order. */
  lemma {:induction false} AcceptedIsCorrect(
    text: AddressText, interface: string, entries: seq<Json>, destinations: seq<Destination>)
    returns (order: seq<Destination>)
    requires Injective(text) && AllNetworksValid(destinations)
    requires Accepted(text, Some(interface), Some(Arr(entries)), destinations)
    ensures HasOneTable(entries) && HasOneBaseChain(entries)
    ensures NoDuplicates(destinations)
    ensures multiset(order) == multiset(destinations) && Enforces(text, interface, Rules(entries), order)
  {
    OneTableIff(entries);
    OneBaseChainIff(entries);
    RulesAreChainRules(entries);
    order := OrderOf(text, interface, Rules(entries), destinations);
  }

  lemma {:induction false} OrderOf(
    text: AddressText, interface: string, rules: seq<Json>, destinations: seq<Destination>)
    returns (order: seq<Destination>)
    requires Injective(text) && AllNetworksValid(destinations)
    requires ExactRules(text, interface, rules, destinations)
    ensures NoDuplicates(destinations)
    ensures multiset(order) == multiset(destinations) && Enforces(text, interface, rules, order)
  {
    ExactRulesArePermutations(text, interface, rules, destinations);
    var found := CounterFreeRules(rules);
    var accepts, expected := found[..|destinations|], ExpectedAccepts(text, interface, destinations);
    order := Reorder(accepts, expected, destinations);
    assert |multiset(order)| == |order| && |multiset(destinations)| == |destinations|;
    forall i | 0 <= i < |order| ensures Carries(rules[i], ExpectedAccept(text, interface, order[i])) {
      assert Paired(destinations, expected, order[i], accepts[i]);
      assert found[i] == accepts[i] == ExpectedAccept(text, interface, order[i]);
    }
  }

  // Two lists side by side.
  predicate Paired<T(==), U(==)>(ds: seq<T>, es: seq<U>, d: T, e: U)
    requires |ds| == |es|
  {
    exists j :: 0 <= j < |ds| && ds[j] == d && es[j] == e
  }

  function Without<T>(s: seq<T>, j: nat): seq<T>
    requires j < |s|
  {
    s[..j] + s[j + 1..]
  }

  lemma {:induction false} StillPaired<T, U>(ds: seq<T>, es: seq<U>, j: nat, d: T, e: U)
    requires |ds| == |es| && j < |ds| && Paired(Without(ds, j), Without(es, j), d, e)
    ensures Paired(ds, es, d, e)
  {
    var i :| 0 <= i < |ds| - 1 && Without(ds, j)[i] == d && Without(es, j)[i] == e;
    var k := if i < j then i else i + 1;
    assert ds[k] == d && es[k] == e;
  }

  predicate AllPaired<T(==), U(==)>(ds: seq<T>, es: seq<U>, order: seq<T>, us: seq<U>)
    requires |ds| == |es|
  {
    |order| == |us| && forall i :: 0 <= i < |us| ==> Paired(ds, es, order[i], us[i])
  }

  lemma {:induction false} PairFirst<T, U>(ds: seq<T>, es: seq<U>, j: nat, rest: seq<T>, us: seq<U>)
    requires |ds| == |es| && j < |ds| && us != [] && es[j] == us[0]
    requires AllPaired(Without(ds, j), Without(es, j), rest, us[1..])
    ensures AllPaired(ds, es, [ds[j]] + rest, us)
  {
    var order := [ds[j]] + rest;
    forall i | 0 <= i < |us| ensures Paired(ds, es, order[i], us[i]) {
      if i > 0 {
        StillPaired(ds, es, j, rest[i - 1], us[1..][i - 1]);
      }
    }
  }

  // The first list, reordered as the second one is.
  lemma {:induction false} Reorder<T, U>(us: seq<U>, es: seq<U>, ds: seq<T>) returns (order: seq<T>)
    requires |es| == |ds| && multiset(us) == multiset(es)
    ensures multiset(order) == multiset(ds) && AllPaired(ds, es, order, us)
    decreases |us|
  {
    assert |us| == |es| by { assert |multiset(us)| == |us| && |multiset(es)| == |es|; }
    if us == [] {
      order := [];
    } else {
      var j := IndexOf(us[0], es, us);
      WithoutOne(ds, j);
      WithoutOne(es, j);
      WithoutOne(us, 0);
      assert Without(us, 0) == us[1..];
      var rest := Reorder(us[1..], Without(es, j), Without(ds, j));
      order := [ds[j]] + rest;
      PairFirst(ds, es, j, rest, us);
    }
  }

  lemma {:induction false} IndexOf<U>(u: U, es: seq<U>, us: seq<U>) returns (j: nat)
    requires u in us && multiset(us) == multiset(es)
    ensures j < |es| && es[j] == u
  {
    assert u in multiset(es);
    j :| 0 <= j < |es| && es[j] == u;
  }

  lemma {:induction false} WithoutOne<T>(s: seq<T>, j: nat)
    requires j < |s|
    ensures multiset(Without(s, j)) == multiset(s) - multiset{s[j]}
    ensures multiset(s) == multiset(Without(s, j)) + multiset{s[j]}
  {
    assert s == s[..j] + [s[j]] + s[j + 1..];
  }

  /**
    Under an accepted ruleset a packet entering on the uplink bridge gets through if and only if
    some allowed destination matches it, and a packet entering on any other interface does.
   */
  lemma {:induction false} PacketsAreTheAllowlist(
    text: AddressText, interface: string, entries: seq<Json>, destinations: seq<Destination>, p: Packet)
    requires Injective(text) && AllNetworksValid(destinations) && p.daddr.version in {4, 6}
    requires Accepted(text, Some(interface), Some(Arr(entries)), destinations)
    ensures Fate(text, entries, p) == if p.iif != interface || SomeAllows(destinations, p) then Accepts else Drops
  {
    OneBaseChainIff(entries);
    var k :| 0 <= k < |entries| && OnlyAt(entries, OurChain, k) && BaseChain(entries[k].fields["chain"]);
    PolicyOfOnlyChain(entries, k);
    RulesAreChainRules(entries);
    CheckedChainIsTheAllowlist(text, interface, Arr(entries), destinations, p);
  }

  // ---- counters and networks ----

  predicate IsPlainCounter(e: Json, packets: nat, bytes: nat) {
    e == Obj(map["counter" := Obj(map["packets" := Int(packets), "bytes" := Int(bytes)])])
  }

  /** A counter may stand anywhere among the expressions, and expressions without one stay as they are. */
  lemma {:induction false} CountersMayStandAnywhere(
    before: seq<Json>, e: Json, after: seq<Json>, packets: nat, bytes: nat)
    requires IsPlainCounter(e, packets, bytes)
    ensures CounterFree(before + [e] + after) == CounterFree(before + after)
    ensures (forall i :: 0 <= i < |before| ==> !IsCounter(before[i])) ==> CounterFree(before) == Some(before)
  {
    if before == [] {
      assert before + [e] + after == [e] + after && before + after == after;
      assert ([e] + after)[1..] == after;
      var c := e.fields["counter"];
      assert c.fields.Keys == {"bytes", "packets"} && e.fields.Keys == {"counter"};
      assert c.fields["bytes"] == Int(bytes) && c.fields["packets"] == Int(packets);
    } else {
      CountersMayStandAnywhere(before[1..], e, after, packets, bytes);
      assert (before + [e] + after)[1..] == before[1..] + [e] + after;
      assert (before + after)[1..] == before[1..] + after;
      assert (before + [e] + after)[0] == before[0] && (before + after)[0] == before[0];
      assert before == [before[0]] + before[1..];
    }
  }

  lemma {:induction false} FloorIsMultiple(bits: nat, block: nat, base: nat)
    requires block > 0 && Floor(base, block) == base
    ensures Floor(bits, block) == base <==> base <= bits < base + block
    decreases bits
  {
    FloorBounds(bits, block);
    FloorBounds(base, block);
    if block <= bits && block <= base {
      FloorIsMultiple(bits - block, block, base - block);
    }
  }

  lemma {:induction false} FloorBounds(bits: nat, block: nat)
    requires block > 0
    ensures Floor(bits, block) <= bits < Floor(bits, block) + block
    decreases bits
  {
    if block <= bits {
      FloorBounds(bits - block, block);
    }
  }

  /** A network holds the addresses of its version from its base on, as many as the free bits allow. */
  lemma {:induction false} NetworkIsRange(n: Network, a: Address)
    requires n.Valid()
    ensures n.Contains(a) <==>
            && a.version == n.base.version
            && n.base.bits <= a.bits < n.base.bits + Pow2(Width(a.version) - n.prefix)
  {
    if n.prefix < Width(n.base.version) {
      FloorIsMultiple(a.bits, Pow2(Width(n.base.version) - n.prefix), n.base.bits);
    }
  }
}
