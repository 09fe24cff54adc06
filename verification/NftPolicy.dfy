/**
  The controlled-egress nftables check (scripts/collect_offline_runtime_evidence.py) and what an
  accepted rule list does to packets.

  Canonical digests are modelled by the digested values themselves, so digests are injective.
  The textual form of an address is a parameter of which only injectivity is used.
 */
module NftPolicy {
  import opened Common
  import opened Json
  import opened Sequences

  const TABLE := "heyi_kb_egress"
  const CHAIN := "heyi_llm_egress_forward"
  const PRIORITY := -5
  const COMMENT := "heyi-controlled-egress"

  // ---- addresses and packets ----

  datatype Address = Address(version: nat, bits: nat)

  function Width(version: nat): nat { if version == 4 then 32 else 128 }

  function Pow2(n: nat): nat
    ensures Pow2(n) > 0
  {
    if n == 0 then 1 else 2 * Pow2(n - 1)
  }

  // The largest multiple of `block` that does not exceed `bits`.
  function Floor(bits: nat, block: nat): nat
    requires block > 0
  {
    if bits < block then 0 else block + Floor(bits - block, block)
  }

  // The address with everything after its first `prefix` bits cleared.
  function Mask(a: Address, prefix: nat): Address {
    if prefix < Width(a.version) then Address(a.version, Floor(a.bits, Pow2(Width(a.version) - prefix))) else a
  }

  // An ipaddress network: its base address has no bits beyond the prefix.
  datatype Network = Network(base: Address, prefix: nat) {
    predicate Valid() { base.version in {4, 6} && prefix <= Width(base.version) && Mask(base, prefix) == base }
    predicate Contains(a: Address) { a.version == base.version && Mask(a, prefix) == base }
  }

  datatype Destination = Destination(protocol: string, port: nat, network: Network)

  datatype Packet = Packet(iif: string, protocol: string, daddr: Address, dport: nat)

  predicate Allows(d: Destination, p: Packet) {
    d.protocol == p.protocol && d.port == p.dport && d.network.Contains(p.daddr)
  }

  type AddressText = Address -> string

  ghost predicate Injective(text: AddressText) {
    forall a, b :: text(a) == text(b) ==> a == b
  }

  // ---- the expected expressions ----

  function Match(left: Json, right: Json): Json {
    Obj(map["match" := Obj(map["op" := Str("=="), "left" := left, "right" := right])])
  }

  function Meta(key: string): Json { Obj(map["meta" := Obj(map["key" := Str(key)])]) }

  function Payload(protocol: string, field: string): Json {
    Obj(map["payload" := Obj(map["protocol" := Str(protocol), "field" := Str(field)])])
  }

  function DestinationValue(text: AddressText, n: Network): Json {
    if n.prefix == Width(n.base.version) then Str(text(n.base))
    else Obj(map["prefix" := Obj(map["addr" := Str(text(n.base)), "len" := Int(n.prefix)])])
  }

  function AddressFamily(version: nat): string { if version == 4 then "ip" else "ip6" }

  const ACCEPT := Obj(map["accept" := Null])
  const DROP := Obj(map["drop" := Null])

  function ExpectedAccept(text: AddressText, interface: string, d: Destination): seq<Json> {
    [Match(Meta("iifname"), Str(interface)),
     Match(Meta("l4proto"), Str(d.protocol)),
     Match(Payload(AddressFamily(d.network.base.version), "daddr"), DestinationValue(text, d.network)),
     Match(Payload(d.protocol, "dport"), Int(d.port)),
     ACCEPT]
  }

  function ExpectedDrop(interface: string): seq<Json> {
    [Match(Meta("iifname"), Str(interface)), DROP]
  }

  // ---- the check ----

  predicate IsCounter(e: Json) { e.Obj? && e.fields.Keys == {"counter"} }

  predicate CounterOk(e: Json)
    requires IsCounter(e)
  {
    var c := e.fields["counter"];
    && c.Obj? && c.fields.Keys == {"bytes", "packets"}
    && AsInt(c.fields["bytes"]).Some? && AsInt(c.fields["bytes"]).value >= 0
    && AsInt(c.fields["packets"]).Some? && AsInt(c.fields["packets"]).value >= 0
  }

  // _counter_free_nft_expressions; None is CollectionBlocked.
  function CounterFree(exprs: seq<Json>): Option<seq<Json>> {
    if exprs == [] then Some([])
    else if IsCounter(exprs[0]) then (if CounterOk(exprs[0]) then CounterFree(exprs[1..]) else None)
    else
      match CounterFree(exprs[1..])
      case None => None
      case Some(rest) => Some([exprs[0]] + rest)
  }

  predicate Positive(value: Option<Json>) {
    value.Some? && AsInt(value.value).Some? && AsInt(value.value).value > 0
  }

  predicate EnvelopeOk(rule: Json) {
    && rule.Obj? && rule.fields.Keys == {"chain", "comment", "expr", "family", "handle", "table"}
    && rule.fields["family"] == Str("inet") && rule.fields["table"] == Str(TABLE)
    && rule.fields["chain"] == Str(CHAIN) && rule.fields["comment"] == Str(COMMENT)
    && Positive(Field(rule, "handle"))
  }

  predicate IsTable(entry: Json) {
    var t := Field(entry, "table");
    t.Some? && t.value.Obj? && Field(t.value, "family") == Some(Str("inet"))
      && Field(t.value, "name") == Some(Str(TABLE))
  }

  predicate IsChain(entry: Json) {
    var c := Field(entry, "chain");
    && c.Some? && c.value.Obj? && Field(c.value, "family") == Some(Str("inet"))
    && Field(c.value, "table") == Some(Str(TABLE)) && Field(c.value, "name") == Some(Str(CHAIN))
  }

  predicate IsRule(entry: Json) {
    var r := Field(entry, "rule");
    && r.Some? && r.value.Obj? && Field(r.value, "family") == Some(Str("inet"))
    && Field(r.value, "table") == Some(Str(TABLE)) && Field(r.value, "chain") == Some(Str(CHAIN))
  }

  predicate ChainOk(chain: Json) {
    && chain.Obj? && {"family", "handle", "hook", "name", "policy", "prio", "table", "type"} <= chain.fields.Keys
    && chain.fields["type"] == Str("filter") && chain.fields["hook"] == Str("forward")
    && (chain.fields["prio"] == Int(PRIORITY) || chain.fields["prio"] == Float(PRIORITY as real))
    && chain.fields["policy"] == Str("accept")
    && Positive(Field(chain, "handle"))
  }

  function Filter(entries: seq<Json>, p: Json -> bool): (r: seq<Json>)
    ensures forall i :: 0 <= i < |r| ==> p(r[i])
  {
    if entries == [] then []
    else (if p(entries[0]) then [entries[0]] else []) + Filter(entries[1..], p)
  }

  function RuleOf(entry: Json): Json
    requires IsRule(entry)
  {
    entry.fields["rule"]
  }

  // The rules of the controlled chain, in ruleset order.
  function ChainRules(entries: seq<Json>): (rules: seq<Json>) {
    var found := Filter(entries, IsRule);
    seq(|found|, i requires 0 <= i < |found| => RuleOf(found[i]))
  }

  // A rule's expressions; None is CollectionBlocked.
  function RuleExpressions(rule: Json): Option<seq<Json>> {
    var expr := Field(rule, "expr");
    if expr.Some? && expr.value.Arr? then CounterFree(expr.value.items) else None
  }

  predicate Readable(rules: seq<Json>) {
    forall i :: 0 <= i < |rules| ==> EnvelopeOk(rules[i]) && RuleExpressions(rules[i]).Some?
  }

  function CounterFreeRules(rules: seq<Json>): (r: seq<seq<Json>>)
    requires Readable(rules)
    ensures |r| == |rules|
  {
    seq(|rules|, i requires 0 <= i < |rules| => RuleExpressions(rules[i]).value)
  }

  function ExpectedAccepts(text: AddressText, interface: string, destinations: seq<Destination>): (r: seq<seq<Json>>)
    ensures |r| == |destinations|
    ensures forall i :: 0 <= i < |r| ==> r[i] == ExpectedAccept(text, interface, destinations[i])
  {
    seq(|destinations|, i requires 0 <= i < |destinations| => ExpectedAccept(text, interface, destinations[i]))
  }

  // The accept rules are the expected ones, each once and in any order; the last rule drops.
  predicate ExactRules(text: AddressText, interface: string, rules: seq<Json>, destinations: seq<Destination>) {
    && Readable(rules) && |rules| == |destinations| + 1
    && var found := CounterFreeRules(rules);
       var accepts := found[..|destinations|];
       && |Elements(accepts)| == |rules| - 1
       && Elements(accepts) == Elements(ExpectedAccepts(text, interface, destinations))
       && found[|destinations|] == ExpectedDrop(interface)
  }

  // _verify_nftables_controlled_policy returns without raising.
  predicate Accepted(
    text: AddressText, interface: Option<string>, ruleset: Option<Json>, destinations: seq<Destination>) {
    && interface.Some? && ruleset.Some? && ruleset.value.Arr?
    && var entries := ruleset.value.items;
       var chains := Filter(entries, IsChain);
       && |Filter(entries, IsTable)| == 1 && |chains| == 1
       && ChainOk(chains[0].fields["chain"])
       && ExactRules(text, interface.value, ChainRules(entries), destinations)
  }

  // ---- what rules do ----

  datatype Effect = Pass | Miss | Accepts | Drops | Unknown

  function AsString(j: Option<Json>): Option<string> {
    if j.Some? && j.value.Str? then Some(j.value.s) else None
  }

  // The destination side of a daddr match: a host or a prefix.
  predicate DaddrMatches(text: AddressText, value: Json, a: Address) {
    || (value.Str? && value.s == text(a))
    || (var prefix := Field(value, "prefix");
        prefix.Some? && Field(prefix.value, "len").Some? && Field(prefix.value, "len").value.Int?
        && var len := Field(prefix.value, "len").value.n;
           0 <= len && AsString(Field(prefix.value, "addr")) == Some(text(Mask(a, len))))
  }

  function MatchEffect(text: AddressText, left: Json, right: Json, p: Packet): Effect {
    var meta, payload := Field(left, "meta"), Field(left, "payload");
    if meta.Some? then
      match AsString(Field(meta.value, "key"))
      case Some("iifname") => if right == Str(p.iif) then Pass else Miss
      case Some("l4proto") => if right == Str(p.protocol) then Pass else Miss
      case _ => Unknown
    else if payload.Some? then
      var protocol, field := AsString(Field(payload.value, "protocol")), AsString(Field(payload.value, "field"));
      if field == Some("daddr") then
        if protocol == Some(AddressFamily(p.daddr.version)) && DaddrMatches(text, right, p.daddr) then Pass else Miss
      else if field == Some("dport") then
        if protocol == Some(p.protocol) && right == Int(p.dport) then Pass else Miss
      else Unknown
    else Unknown
  }

  function Evaluate(text: AddressText, e: Json, p: Packet): Effect {
    if IsCounter(e) then Pass
    else if e == ACCEPT then Accepts
    else if e == DROP then Drops
    else
      var m := Field(e, "match");
      if m.Some? && Field(m.value, "op") == Some(Str("==")) && Field(m.value, "left").Some?
        && Field(m.value, "right").Some?
      then MatchEffect(text, Field(m.value, "left").value, Field(m.value, "right").value, p)
      else Unknown
  }

  // A rule stops at its first expression that does not pass; Pass means it had no verdict.
  function RuleEffect(text: AddressText, exprs: seq<Json>, p: Packet): Effect {
    if exprs == [] then Pass
    else
      match Evaluate(text, exprs[0], p)
      case Pass => RuleEffect(text, exprs[1..], p)
      case other => other
  }

  // The first rule with a verdict decides; a packet that passes every rule falls through to the
  // chain's policy, which is accept.
  function ChainVerdict(text: AddressText, rules: seq<seq<Json>>, p: Packet): Effect {
    if rules == [] then Pass
    else
      match RuleEffect(text, rules[0], p)
      case Pass => ChainVerdict(text, rules[1..], p)
      case Miss => ChainVerdict(text, rules[1..], p)
      case other => other
  }

  // The expressions of the chain as installed, counters included.
  function Installed(entries: seq<Json>): seq<seq<Json>> { InstalledRules(ChainRules(entries)) }

  function InstalledRules(rules: seq<Json>): (r: seq<seq<Json>>)
    ensures |r| == |rules|
  {
    seq(|rules|, i requires 0 <= i < |rules| =>
      var e := Field(rules[i], "expr"); if e.Some? && e.value.Arr? then e.value.items else [])
  }

  lemma {:induction false} CountersDoNothing(text: AddressText, exprs: seq<Json>, p: Packet)
    requires CounterFree(exprs).Some?
    ensures RuleEffect(text, exprs, p) == RuleEffect(text, CounterFree(exprs).value, p)
  {
    if exprs != [] {
      CountersDoNothing(text, exprs[1..], p);
      if !IsCounter(exprs[0]) {
        assert CounterFree(exprs).value[1..] == CounterFree(exprs[1..]).value;
      }
    }
  }

  lemma {:induction false} MatchEvaluates(text: AddressText, left: Json, right: Json, p: Packet)
    ensures Evaluate(text, Match(left, right), p) == MatchEffect(text, left, right, p)
  {
    var e := Match(left, right);
    assert "match" in e.fields.Keys && "accept" in ACCEPT.fields.Keys && "drop" in DROP.fields.Keys;
    assert "match" !in ACCEPT.fields.Keys && "match" !in DROP.fields.Keys;
  }

  lemma {:induction false} VerdictsEvaluate(text: AddressText, p: Packet)
    ensures Evaluate(text, ACCEPT, p) == Accepts && Evaluate(text, DROP, p) == Drops
  {
    assert "accept" in ACCEPT.fields.Keys && "drop" in DROP.fields.Keys && "drop" !in ACCEPT.fields.Keys;
  }

  lemma {:induction false} DaddrMatchesNetwork(text: AddressText, n: Network, a: Address)
    requires Injective(text) && n.Valid() && a.version == n.base.version
    ensures DaddrMatches(text, DestinationValue(text, n), a) <==> n.Contains(a)
  {
    var value := DestinationValue(text, n);
    if n.prefix != Width(n.base.version) {
      var prefix := Field(value, "prefix").value;
      assert Field(prefix, "len") == Some(Int(n.prefix)) && Field(prefix, "addr") == Some(Str(text(n.base)));
    }
  }

  lemma {:induction false} DaddrEffect(text: AddressText, n: Network, p: Packet)
    requires Injective(text) && n.Valid() && p.daddr.version in {4, 6}
    ensures MatchEffect(text, Payload(AddressFamily(n.base.version), "daddr"), DestinationValue(text, n), p)
            == if n.Contains(p.daddr) then Pass else Miss
  {
    assert "ip" != "ip6" by { assert |"ip"| != |"ip6"|; }
    if n.base.version == p.daddr.version {
      DaddrMatchesNetwork(text, n, p.daddr);
    }
  }

  lemma {:induction false} RuleEffectStep(text: AddressText, e: Json, rest: seq<Json>, p: Packet)
    ensures RuleEffect(text, [e] + rest, p)
            == if Evaluate(text, e, p) == Pass then RuleEffect(text, rest, p) else Evaluate(text, e, p)
  {
    assert ([e] + rest)[1..] == rest;
  }

  lemma {:induction false} FourMatches(text: AddressText, a: Json, b: Json, c: Json, d: Json, verdict: Json, p: Packet)
    requires Evaluate(text, a, p) in {Pass, Miss} && Evaluate(text, b, p) in {Pass, Miss}
    requires Evaluate(text, c, p) in {Pass, Miss} && Evaluate(text, d, p) in {Pass, Miss}
    requires Evaluate(text, verdict, p) in {Accepts, Drops}
    ensures RuleEffect(text, [a, b, c, d, verdict], p)
            == if Evaluate(text, a, p) == Evaluate(text, b, p) == Evaluate(text, c, p) == Evaluate(text, d, p) == Pass
               then Evaluate(text, verdict, p) else Miss
  {
    RuleEffectStep(text, verdict, [], p);
    RuleEffectStep(text, d, [verdict], p);
    RuleEffectStep(text, c, [d, verdict], p);
    RuleEffectStep(text, b, [c, d, verdict], p);
    RuleEffectStep(text, a, [b, c, d, verdict], p);
    assert [verdict] + [] == [verdict] && [d] + [verdict] == [d, verdict] && [c] + [d, verdict] == [c, d, verdict];
    assert [b] + [c, d, verdict] == [b, c, d, verdict] && [a] + [b, c, d, verdict] == [a, b, c, d, verdict];
  }

  lemma {:induction false} MetaEffect(text: AddressText, key: string, value: string, p: Packet)
    requires key in {"iifname", "l4proto"}
    ensures Evaluate(text, Match(Meta(key), Str(value)), p)
            == if value == (if key == "iifname" then p.iif else p.protocol) then Pass else Miss
  {
    MatchEvaluates(text, Meta(key), Str(value), p);
    assert Field(Field(Meta(key), "meta").value, "key") == Some(Str(key));
  }

  lemma {:induction false} PortEffect(text: AddressText, d: Destination, p: Packet)
    ensures Evaluate(text, Match(Payload(d.protocol, "dport"), Int(d.port)), p)
            == if d.protocol == p.protocol && d.port == p.dport then Pass else Miss
  {
    MatchEvaluates(text, Payload(d.protocol, "dport"), Int(d.port), p);
    var body := Field(Payload(d.protocol, "dport"), "payload").value;
    assert Field(body, "field") == Some(Str("dport")) && Field(body, "protocol") == Some(Str(d.protocol));
  }

  /** An expected accept rule accepts exactly the packets of its interface that its entry allows. */
  lemma {:induction false} AcceptRuleEffect(text: AddressText, interface: string, d: Destination, p: Packet)
    requires Injective(text) && d.network.Valid() && p.daddr.version in {4, 6}
    ensures RuleEffect(text, ExpectedAccept(text, interface, d), p)
            == if p.iif == interface && Allows(d, p) then Accepts else Miss
  {
    var daddr := Match(Payload(AddressFamily(d.network.base.version), "daddr"), DestinationValue(text, d.network));
    MetaEffect(text, "iifname", interface, p);
    MetaEffect(text, "l4proto", d.protocol, p);
    assert Evaluate(text, daddr, p) == if d.network.Contains(p.daddr) then Pass else Miss by {
      MatchEvaluates(text, Payload(AddressFamily(d.network.base.version), "daddr"), DestinationValue(text, d.network),
        p);
      DaddrEffect(text, d.network, p);
    }
    PortEffect(text, d, p);
    VerdictsEvaluate(text, p);
    FourMatches(text, Match(Meta("iifname"), Str(interface)), Match(Meta("l4proto"), Str(d.protocol)), daddr,
                Match(Payload(d.protocol, "dport"), Int(d.port)), ACCEPT, p);
  }

  lemma {:induction false} DropRuleEffect(text: AddressText, interface: string, p: Packet)
    ensures RuleEffect(text, ExpectedDrop(interface), p) == if p.iif == interface then Drops else Miss
  {
    var scope := Match(Meta("iifname"), Str(interface));
    MetaEffect(text, "iifname", interface, p);
    VerdictsEvaluate(text, p);
    RuleEffectStep(text, DROP, [], p);
    RuleEffectStep(text, scope, [DROP], p);
    assert ExpectedDrop(interface) == [scope] + [DROP] && [DROP] + [] == [DROP];
  }

  // What one accept rule list does, whatever its order.
  lemma {:induction false} ChainOfAccepts(text: AddressText, rules: seq<seq<Json>>, p: Packet)
    requires rules != []
    requires forall i :: 0 <= i < |rules| - 1 ==> RuleEffect(text, rules[i], p) in {Accepts, Miss}
    requires RuleEffect(text, rules[|rules| - 1], p) in {Drops, Miss}
    ensures ChainVerdict(text, rules, p) ==
            if exists i :: 0 <= i < |rules| - 1 && RuleEffect(text, rules[i], p) == Accepts then Accepts
            else if RuleEffect(text, rules[|rules| - 1], p) == Drops then Drops else Pass
  {
    if |rules| > 1 && RuleEffect(text, rules[0], p) == Miss {
      var rest := rules[1..];
      assert forall i :: 0 <= i < |rest| ==> rest[i] == rules[i + 1];
      ChainOfAccepts(text, rest, p);
      if i :| 0 < i < |rules| - 1 && RuleEffect(text, rules[i], p) == Accepts {
        assert RuleEffect(text, rest[i - 1], p) == Accepts;
      }
    } else if |rules| == 1 {
      assert rules[1..] == [];
    }
  }

  lemma {:induction false} SameElements(a: seq<seq<Json>>, b: seq<seq<Json>>)
    requires Elements(a) == Elements(b)
    ensures forall i :: 0 <= i < |a| ==> a[i] in b
  {
    forall i | 0 <= i < |a| ensures a[i] in b {
      assert a[i] in Elements(a);
    }
  }

  lemma {:induction false} InstalledMeansCounterFree(text: AddressText, rules: seq<Json>, p: Packet)
    requires Readable(rules)
    ensures forall i :: 0 <= i < |rules| ==>
                          RuleEffect(text, InstalledRules(rules)[i], p)
                            == RuleEffect(text, CounterFreeRules(rules)[i], p)
  {
    forall i | 0 <= i < |rules|
      ensures RuleEffect(text, InstalledRules(rules)[i], p) == RuleEffect(text, CounterFreeRules(rules)[i], p)
    {
      CountersDoNothing(text, InstalledRules(rules)[i], p);
    }
  }

  // The effect of each expected accept rule, and of their list in any order.
  predicate SomeAllows(destinations: seq<Destination>, p: Packet) {
    exists i :: 0 <= i < |destinations| && Allows(destinations[i], p)
  }

  lemma {:induction false} AcceptsInAnyOrder(
    text: AddressText, interface: string, accepts: seq<seq<Json>>, destinations: seq<Destination>, p: Packet)
    requires Injective(text) && p.daddr.version in {4, 6}
    requires forall i :: 0 <= i < |destinations| ==> destinations[i].network.Valid()
    requires Elements(accepts) == Elements(ExpectedAccepts(text, interface, destinations))
    ensures forall i :: 0 <= i < |accepts| ==> RuleEffect(text, accepts[i], p) in {Accepts, Miss}
    ensures (exists i :: 0 <= i < |accepts| && RuleEffect(text, accepts[i], p) == Accepts)
            <==> p.iif == interface && SomeAllows(destinations, p)
  {
    var expected := ExpectedAccepts(text, interface, destinations);
    forall j | 0 <= j < |destinations|
      ensures RuleEffect(text, expected[j], p)
              == if p.iif == interface && Allows(destinations[j], p) then Accepts else Miss
    {
      AcceptRuleEffect(text, interface, destinations[j], p);
    }
    SameElements(accepts, expected);
    SameElements(expected, accepts);
    if p.iif == interface && SomeAllows(destinations, p) {
      var j :| 0 <= j < |destinations| && Allows(destinations[j], p);
      assert RuleEffect(text, expected[j], p) == Accepts;
    }
  }

  /**
    A checked chain means exactly the allowlist. Whatever the order of the accept rules and
    wherever counters stand, a packet entering on the uplink bridge is accepted if and only if
    some allowed destination matches it and is dropped otherwise; on every other interface no rule
    decides, and the packet falls through to the accept policy.
   */
  lemma {:induction false} CheckedChainIsTheAllowlist(
    text: AddressText, interface: string, ruleset: Json, destinations: seq<Destination>, p: Packet)
    requires Injective(text) && p.daddr.version in {4, 6}
    requires forall i :: 0 <= i < |destinations| ==> destinations[i].network.Valid()
    requires Accepted(text, Some(interface), Some(ruleset), destinations)
    ensures ChainVerdict(text, Installed(ruleset.items), p)
            == if p.iif != interface then Pass else if SomeAllows(destinations, p) then Accepts else Drops
  {
    ExactRulesAreTheAllowlist(text, interface, ChainRules(ruleset.items), destinations, p);
  }

  lemma {:induction false} ExactRulesAreTheAllowlist(
    text: AddressText, interface: string, rules: seq<Json>, destinations: seq<Destination>, p: Packet)
    requires Injective(text) && p.daddr.version in {4, 6}
    requires forall i :: 0 <= i < |destinations| ==> destinations[i].network.Valid()
    requires ExactRules(text, interface, rules, destinations)
    ensures ChainVerdict(text, InstalledRules(rules), p)
            == if p.iif != interface then Pass else if SomeAllows(destinations, p) then Accepts else Drops
  {
    var found, n := CounterFreeRules(rules), |destinations|;
    InstalledMeansCounterFree(text, rules, p);
    AcceptsInAnyOrder(text, interface, found[..n], destinations, p);
    DropRuleEffect(text, interface, p);
    VerdictOfEffects(text, InstalledRules(rules), found, p);
  }

  // Accept rules followed by one rule that drops or misses, known up to counters.
  lemma {:induction false} VerdictOfEffects(
    text: AddressText, installed: seq<seq<Json>>, found: seq<seq<Json>>, p: Packet)
    requires |installed| == |found| > 0
    requires forall i :: 0 <= i < |found| ==> RuleEffect(text, installed[i], p) == RuleEffect(text, found[i], p)
    requires var accepts := found[..|found| - 1];
             forall i :: 0 <= i < |accepts| ==> RuleEffect(text, accepts[i], p) in {Accepts, Miss}
    requires RuleEffect(text, found[|found| - 1], p) in {Drops, Miss}
    ensures var accepts := found[..|found| - 1];
            ChainVerdict(text, installed, p) ==
              if exists i :: 0 <= i < |accepts| && RuleEffect(text, accepts[i], p) == Accepts then Accepts
              else if RuleEffect(text, found[|found| - 1], p) == Drops then Drops else Pass
  {
    var accepts := found[..|found| - 1];
    assert forall i :: 0 <= i < |accepts| ==> accepts[i] == found[i];
    assert forall i :: 0 <= i < |accepts| ==> RuleEffect(text, installed[i], p) == RuleEffect(text, accepts[i], p);
    ChainOfAccepts(text, installed, p);
  }

  // ---- which rule lists are accepted ----

  lemma {:induction false} DestinationValueInjective(text: AddressText, m: Network, n: Network)
    requires Injective(text) && m.Valid() && n.Valid()
    requires DestinationValue(text, m) == DestinationValue(text, n) && m.base.version == n.base.version
    ensures m == n
  {
    var a, b := DestinationValue(text, m), DestinationValue(text, n);
    if m.prefix != Width(m.base.version) {
      var x, y := Field(a, "prefix").value, Field(b, "prefix").value;
      assert Field(x, "len") == Some(Int(m.prefix)) && Field(y, "len") == Some(Int(n.prefix));
      assert Field(x, "addr") == Some(Str(text(m.base))) && Field(y, "addr") == Some(Str(text(n.base)));
    }
  }

  lemma {:induction false} MatchInjective(left: Json, right: Json, left': Json, right': Json)
    requires Match(left, right) == Match(left', right')
    ensures left == left' && right == right'
  {
    var a, b := Field(Match(left, right), "match").value, Field(Match(left', right'), "match").value;
    assert Field(a, "left") == Field(b, "left") && Field(a, "right") == Field(b, "right");
  }

  lemma {:induction false} ExpectedAcceptInjective(text: AddressText, interface: string, d: Destination, e: Destination)
    requires Injective(text) && d.network.Valid() && e.network.Valid()
    requires ExpectedAccept(text, interface, d) == ExpectedAccept(text, interface, e)
    ensures d == e
  {
    var a, b := ExpectedAccept(text, interface, d), ExpectedAccept(text, interface, e);
    assert a[1] == b[1] && a[2] == b[2] && a[3] == b[3];
    MatchInjective(Meta("l4proto"), Str(d.protocol), Meta("l4proto"), Str(e.protocol));
    MatchInjective(Payload(d.protocol, "dport"), Int(d.port), Payload(e.protocol, "dport"), Int(e.port));
    var x, y := Payload(AddressFamily(d.network.base.version), "daddr"),
      Payload(AddressFamily(e.network.base.version), "daddr");
    MatchInjective(x, DestinationValue(text, d.network), y, DestinationValue(text, e.network));
    assert Field(Field(x, "payload").value, "protocol") == Field(Field(y, "payload").value, "protocol");
    assert |"ip"| != |"ip6"|;
    DestinationValueInjective(text, d.network, e.network);
  }

  /**
    The check accepts a rule list exactly when its destinations are distinct, its accept rules
    without counters are a permutation of the expected ones, and its last rule drops.
   */
  lemma {:induction false} ExactRulesArePermutations(
    text: AddressText, interface: string, rules: seq<Json>, destinations: seq<Destination>)
    requires Injective(text) && Readable(rules) && |rules| == |destinations| + 1
    requires forall i :: 0 <= i < |destinations| ==> destinations[i].network.Valid()
    ensures ExactRules(text, interface, rules, destinations) <==>
            && NoDuplicates(destinations)
            && multiset(CounterFreeRules(rules)[..|destinations|])
               == multiset(ExpectedAccepts(text, interface, destinations))
            && CounterFreeRules(rules)[|destinations|] == ExpectedDrop(interface)
  {
    var accepts := CounterFreeRules(rules)[..|destinations|];
    var expected := ExpectedAccepts(text, interface, destinations);
    ElementsSize(accepts);
    ElementsSize(expected);
    assert NoDuplicates(expected) <==> NoDuplicates(destinations) by {
      if NoDuplicates(destinations) {
        forall i, j | 0 <= i < j < |expected| ensures expected[i] != expected[j] {
          if expected[i] == expected[j] {
            ExpectedAcceptInjective(text, interface, destinations[i], destinations[j]);
          }
        }
      }
    }
    if NoDuplicates(accepts) && NoDuplicates(expected) {
      SameElementsPermute(accepts, expected);
    } else if multiset(accepts) == multiset(expected) && NoDuplicates(expected) {
      PermutationKeepsNoDuplicates(expected, accepts);
    }
  }
}
