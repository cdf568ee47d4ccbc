/** From policies to firewall rules: buildPolicy resolves the selectors of a policy to names and
    blocks, Evaluate turns the rules of all policies into one decision per flow. */
module RuleCompiler {
  import opened Prelude
  import opened KeyNames
  import opened Policy

  // ================================================================ buildPolicy

  datatype Rule = Rule(peerNames: seq<string>, cidrs: seq<string>, port: int, protocol: string, action: string)

  predicate InNetwork(digest: Digest, network: string, labels: Labels) {
    network == "" || (var key := NetworkLabelKey(digest, network); key in labels && labels[key] == "true")
  }

  /** The peers a selection list names, among the peers of the policy's namespace and network. */
  ghost predicate IsListed(digest: Digest, nodes: seq<Member>, network: string, sels: seq<Selection>, name: string) {
    exists m :: m in nodes && m.name == name && InNetwork(digest, network, m.labels) && SelectedBy(sels, m.labels)
  }

  /** A policy without a network lists the selected peers of the whole namespace, one with a network only those that
      carry its label with the value "true". */
  lemma ListedIff(digest: Digest, nodes: seq<Member>, network: string, sels: seq<Selection>, n: string)
    ensures network == "" ==>
      (IsListed(digest, nodes, network, sels, n) <==>
       exists m :: m in nodes && m.name == n && SelectedBy(sels, m.labels))
    ensures network != "" ==>
      var key := NetworkLabelKey(digest, network);
      (IsListed(digest, nodes, network, sels, n) <==>
       exists m :: m in nodes && m.name == n && SelectedBy(sels, m.labels) && key in m.labels
         && m.labels[key] == "true")
  {
    hide SelectedBy, NetworkLabelKey;
  }

  method GetPeerNames(digest: Digest, nodes: seq<Member>, network: string, sels: seq<Selection>)
    returns (names: seq<string>)
    ensures forall n :: n in names <==> IsListed(digest, nodes, network, sels, n)
  {
    hide Selects, InNetwork;
    var found: set<string> := {};
    for i := 0 to |sels|
      invariant forall n :: n in found <==> IsListed(digest, nodes, network, sels[..i], n)
    {
      SelectedByNext(sels, i);
      ghost var before := found;
      for j := 0 to |nodes|
        invariant forall n :: n in found <==> n in before || ListedBy(digest, nodes[..j], network, sels[i], n)
      {
        if Selects(sels[i], nodes[j].labels) && InNetwork(digest, network, nodes[j].labels) {
          found := found + {nodes[j].name};
        }
        ListedByNext(digest, nodes, network, sels[i], j);
      }
      assert nodes[..|nodes|] == nodes;
    }
    assert sels[..|sels|] == sels;
    names := [];
    var rest := found;
    while rest != {}
      invariant forall n :: n in found <==> n in rest || n in names
      decreases |rest|
    {
      var n :| n in rest;
      names := names + [n];
      rest := rest - {n};
    }
  }

  ghost predicate ListedBy(digest: Digest, nodes: seq<Member>, network: string, x: Selection, name: string) {
    exists m :: m in nodes && m.name == name && InNetwork(digest, network, m.labels) && Selects(x, m.labels)
  }

  lemma ListedByNext(digest: Digest, nodes: seq<Member>, network: string, x: Selection, j: nat)
    requires j < |nodes|
    ensures forall n :: ListedBy(digest, nodes[..j + 1], network, x, n) <==>
      ListedBy(digest, nodes[..j], network, x, n)
      || (n == nodes[j].name && InNetwork(digest, network, nodes[j].labels) && Selects(x, nodes[j].labels))
  {
    hide Selects, InNetwork;
    assert nodes[..j + 1] == nodes[..j] + [nodes[j]];
    forall n
      ensures ListedBy(digest, nodes[..j + 1], network, x, n) <==>
        ListedBy(digest, nodes[..j], network, x, n)
        || (n == nodes[j].name && InNetwork(digest, network, nodes[j].labels) && Selects(x, nodes[j].labels))
    {
      if ListedBy(digest, nodes[..j], network, x, n) {
        var m :| m in nodes[..j] && m.name == n && InNetwork(digest, network, m.labels) && Selects(x, m.labels);
        assert m in nodes[..j + 1];
      }
      assert nodes[j] in nodes[..j + 1];
    }
  }

  function ExtractCIDRs(sels: seq<Selection>): seq<string> {
    if sels == [] then []
    else match sels[0].ipBlock
      case Some(c) => (if c != "" then [c] else []) + ExtractCIDRs(sels[1..])
      case None => ExtractCIDRs(sels[1..])
  }

  /** The blocks of a selection list are its non-empty IPBlock entries. */
  lemma {:induction false} ExtractedCIDR(sels: seq<Selection>, c: string)
    ensures c in ExtractCIDRs(sels) <==> c != "" && exists x :: x in sels && x.ipBlock == Some(c)
  {
    if sels != [] {
      ExtractedCIDR(sels[1..], c);
      assert sels == [sels[0]] + sels[1..];
    }
  }

  /** The ports a traffic rule is compiled for; without any, all traffic as port 0 of no protocol. */
  function PortsOf(s: TrafficSpec): (r: seq<Port>)
    ensures r != []
  {
    if s.ports == [] then [Port(0, "")] else s.ports
  }

  /** The (rule of the policy, port) pairs that become compiled rules, in order. */
  function Expanded(specs: seq<TrafficSpec>): seq<(TrafficSpec, Port)> {
    if specs == [] then []
    else Expanded(specs[..|specs| - 1]) + OnPorts(specs[|specs| - 1], PortsOf(specs[|specs| - 1]))
  }

  function OnPorts(s: TrafficSpec, ports: seq<Port>): seq<(TrafficSpec, Port)> {
    seq(|ports|, i requires 0 <= i < |ports| => (s, ports[i]))
  }

  ghost predicate RuleFor(digest: Digest, nodes: seq<Member>, p: LatticePolicy, it: (TrafficSpec, Port), rule: Rule) {
    && (forall n :: n in rule.peerNames <==> IsListed(digest, nodes, p.network, it.0.selections, n))
    && rule.cidrs == ExtractCIDRs(it.0.selections)
    && rule.port == it.1.port && rule.protocol == it.1.protocol
    && rule.action == if p.action == "" then "ALLOW" else p.action
  }

  ghost predicate RulesFor(digest: Digest, nodes: seq<Member>, p: LatticePolicy, its: seq<(TrafficSpec, Port)>,
                           rules: seq<Rule>) {
    |rules| == |its| && forall i :: 0 <= i < |its| ==> RuleFor(digest, nodes, p, its[i], rules[i])
  }

  const ALLOW := "ALLOW"
  const DENY := "DENY"

  datatype Compiled = Compiled(ingress: seq<Rule>, egress: seq<Rule>)

  ghost predicate CompiledFrom(digest: Digest, nodes: seq<Member>, p: LatticePolicy, c: Compiled) {
    && RulesFor(digest, nodes, p, Expanded(p.ingress), c.ingress)
    && RulesFor(digest, nodes, p, Expanded(p.egress), c.egress)
  }

  method BuildRules(digest: Digest, nodes: seq<Member>, p: LatticePolicy, specs: seq<TrafficSpec>)
    returns (rules: seq<Rule>)
    ensures RulesFor(digest, nodes, p, Expanded(specs), rules)
  {
    hide RulesFor, OnPorts, PortsOf;
    rules := [];
    NoRules(digest, nodes, p);
    for i := 0 to |specs|
      invariant RulesFor(digest, nodes, p, Expanded(specs[..i]), rules)
    {
      var added := BuildRule(digest, nodes, p, specs[i]);
      RulesForConcat(digest, nodes, p, Expanded(specs[..i]), rules, OnPorts(specs[i], PortsOf(specs[i])), added);
      rules := rules + added;
      assert specs[..i + 1][..i] == specs[..i];
    }
    assert specs[..|specs|] == specs;
  }

  lemma NoRules(digest: Digest, nodes: seq<Member>, p: LatticePolicy)
    ensures RulesFor(digest, nodes, p, [], [])
  {
  }

  lemma RulesForConcat(digest: Digest, nodes: seq<Member>, p: LatticePolicy,
                       xs: seq<(TrafficSpec, Port)>, rs: seq<Rule>, ys: seq<(TrafficSpec, Port)>, qs: seq<Rule>)
    requires RulesFor(digest, nodes, p, xs, rs) && RulesFor(digest, nodes, p, ys, qs)
    ensures RulesFor(digest, nodes, p, xs + ys, rs + qs)
  {
    hide RuleFor;
  }

  /** One rule of the policy: a compiled rule for all traffic, or one for each port. */
  method BuildRule(digest: Digest, nodes: seq<Member>, p: LatticePolicy, s: TrafficSpec) returns (rules: seq<Rule>)
    ensures RulesFor(digest, nodes, p, OnPorts(s, PortsOf(s)), rules)
  {
    hide IsListed, ExtractCIDRs;
    var action := p.action;
    if action == "" {
      action := ALLOW;
    }
    var names := GetPeerNames(digest, nodes, p.network, s.selections);
    var cidrs := ExtractCIDRs(s.selections);
    if s.ports == [] {
      return [Rule(names, cidrs, 0, "", action)];
    }
    rules := [];
    for j := 0 to |s.ports|
      invariant RulesFor(digest, nodes, p, OnPorts(s, s.ports[..j]), rules)
    {
      rules := rules + [Rule(names, cidrs, s.ports[j].port, s.ports[j].protocol, action)];
    }
    assert s.ports[..|s.ports|] == s.ports;
  }

  method BuildPolicy(digest: Digest, nodes: seq<Member>, p: LatticePolicy) returns (c: Compiled)
    ensures CompiledFrom(digest, nodes, p, c)
  {
    var ingress := BuildRules(digest, nodes, p, p.ingress);
    var egress := BuildRules(digest, nodes, p, p.egress);
    c := Compiled(ingress, egress);
  }

  /** Each rule of the policy becomes at least one compiled rule, and every compiled rule comes from one. */
  lemma {:induction false} ExpandedCovers(specs: seq<TrafficSpec>)
    ensures forall s :: s in specs <==> exists it :: it in Expanded(specs) && it.0 == s
  {
    if specs != [] {
      var init, last := specs[..|specs| - 1], specs[|specs| - 1];
      ExpandedCovers(init);
      assert specs == init + [last];
      var tail := OnPorts(last, PortsOf(last));
      assert tail[0] in tail && tail[0].0 == last;
      assert forall it :: it in tail ==> it.0 == last;
      assert forall it :: it in Expanded(specs) <==> it in Expanded(init) || it in tail;
    }
  }

  /** Rules are compiled in order, each for its ports in order, or for port 0 of no protocol if it has none. */
  lemma {:induction false} ExpandedConcat(xs: seq<TrafficSpec>, ys: seq<TrafficSpec>)
    ensures Expanded(xs + ys) == Expanded(xs) + Expanded(ys)
  {
    hide PortsOf, OnPorts;
    if ys == [] {
      assert xs + ys == xs;
    } else {
      var init, last := ys[..|ys| - 1], ys[|ys| - 1];
      ExpandedConcat(xs, init);
      ExpandedSnoc(xs + init, last);
      ExpandedSnoc(init, last);
      assert xs + ys == xs + init + [last] && ys == init + [last];
    }
  }

  lemma ExpandedSnoc(xs: seq<TrafficSpec>, x: TrafficSpec)
    ensures Expanded(xs + [x]) == Expanded(xs) + OnPorts(x, PortsOf(x))
  {
    assert (xs + [x])[..|xs|] == xs;
  }

  lemma ExpandedOne(s: TrafficSpec)
    ensures |Expanded([s])| == if s.ports == [] then 1 else |s.ports|
    ensures forall i | 0 <= i < |Expanded([s])| ::
      Expanded([s])[i] == (s, if s.ports == [] then Port(0, "") else s.ports[i])
  {
    assert [s][..0] == [] && Expanded([s]) == Expanded([]) + OnPorts(s, PortsOf(s));
  }

  // ================================================================ Evaluate

  /** Unique traffic flow. */
  datatype Flow = Flow(peer: string, port: int, protocol: string)

  datatype Contribution = Contribution(flow: Flow, action: string)

  type Decisions = map<Flow, string>

  /** The part of an address before its first slash. */
  function CleanIP(address: string): (r: string)
    ensures '/' !in r && r <= address
    ensures r == address || address[|r|] == '/'
  {
    if address == "" || address[0] == '/' then "" else [address[0]] + CleanIP(address[1..])
  }

  /** strings.TrimSpace leaves nothing. */
  predicate IsBlank(s: string) { forall ch | ch in s :: IsSpace(ch) }

  /** unicode.IsSpace */
  predicate IsSpace(ch: char) {
    || '\t' <= ch <= '\r' || ch in {' ', '\U{85}', '\U{A0}', '\U{1680}', '\U{202F}', '\U{205F}', '\U{3000}'}
    || '\U{2000}' <= ch <= '\U{200A}' || '\U{2028}' <= ch <= '\U{2029}'
  }

  /** peerIPByName: the address of a named member, without prefix length. */
  function AddressByName(members: seq<Member>): map<string, string> {
    if members == [] then map[]
    else
      var last := members[|members| - 1];
      var before := AddressByName(members[..|members| - 1]);
      if last.address.Some? then before[last.name := CleanIP(last.address.value)] else before
  }

  lemma {:induction false} AddressOf(members: seq<Member>, n: string)
    ensures n in AddressByName(members) ==>
      exists m :: m in members && m.name == n && m.address.Some? &&
        AddressByName(members)[n] == CleanIP(m.address.value)
    ensures (exists m :: m in members && m.name == n && m.address.Some?) ==> n in AddressByName(members)
  {
    hide CleanIP;
    if members != [] {
      var init, last := members[..|members| - 1], members[|members| - 1];
      AddressOf(init, n);
      assert members == init + [last];
    }
  }

  /** resolveRulePeers: names with a known address, except the current peer, then the blocks. */
  function RulePeers(rule: Rule, ips: map<string, string>, current: string): seq<string> {
    NamedPeers(rule.peerNames, ips, current) + NonBlank(rule.cidrs)
  }

  function NamedPeers(names: seq<string>, ips: map<string, string>, current: string): seq<string> {
    if names == [] then []
    else NamedPeers(names[..|names| - 1], ips, current) + NamedPeer(names[|names| - 1], ips, current)
  }

  function NamedPeer(n: string, ips: map<string, string>, current: string): seq<string> {
    if n == current || n !in ips || ips[n] == "" then [] else [ips[n]]
  }

  function NonBlank(cidrs: seq<string>): seq<string> {
    if cidrs == [] then []
    else NonBlank(cidrs[..|cidrs| - 1]) + (if IsBlank(cidrs[|cidrs| - 1]) then [] else [cidrs[|cidrs| - 1]])
  }

  lemma {:induction false} IsNamedPeer(names: seq<string>, ips: map<string, string>, current: string, a: string)
    ensures a in NamedPeers(names, ips, current) <==>
      a != "" && exists n :: n in names && n != current && n in ips && ips[n] == a
  {
    if names != [] {
      var init, last := names[..|names| - 1], names[|names| - 1];
      IsNamedPeer(init, ips, current, a);
      assert names == init + [last];
    }
  }

  lemma {:induction false} IsNonBlank(cidrs: seq<string>, c: string)
    ensures c in NonBlank(cidrs) <==> c in cidrs && !IsBlank(c)
  {
    hide IsBlank;
    if cidrs != [] {
      var init, last := cidrs[..|cidrs| - 1], cidrs[|cidrs| - 1];
      IsNonBlank(init, c);
      assert cidrs == init + [last];
    }
  }

  method ResolveRulePeers(rule: Rule, ips: map<string, string>, current: string) returns (peers: seq<string>)
    ensures peers == RulePeers(rule, ips, current)
  {
    hide IsBlank;
    var names, cidrs := rule.peerNames, rule.cidrs;
    var named: seq<string> := [];
    for i := 0 to |names|
      invariant named == NamedPeers(names[..i], ips, current)
    {
      assert names[..i + 1][..i] == names[..i];
      if names[i] != current && names[i] in ips && ips[names[i]] != "" {
        named := named + [ips[names[i]]];
      }
    }
    assert names[..|names|] == names;
    var blocks: seq<string> := [];
    for i := 0 to |cidrs|
      invariant blocks == NonBlank(cidrs[..i])
    {
      assert cidrs[..i + 1][..i] == cidrs[..i];
      if !IsBlank(cidrs[i]) {
        blocks := blocks + [cidrs[i]];
      }
    }
    assert cidrs[..|cidrs|] == cidrs;
    peers := named + blocks;
  }

  function Contributions(rule: Rule, peers: seq<string>): seq<Contribution> {
    seq(|peers|, i requires 0 <= i < |peers| => Contribution(Flow(peers[i], rule.port, rule.protocol), rule.action))
  }

  /** Everything a list of rules contributes, in order. */
  function AllContributions(rules: seq<Rule>, ips: map<string, string>, current: string): seq<Contribution> {
    if rules == [] then []
    else AllContributions(rules[..|rules| - 1], ips, current)
         + Contributions(rules[|rules| - 1], RulePeers(rules[|rules| - 1], ips, current))
  }

  /** ALLOW is sticky, any other action is overwritten by a later one. */
  function Decide(d: Decisions, c: Contribution): Decisions {
    if c.flow in d && d[c.flow] == ALLOW then d else d[c.flow := c.action]
  }

  function Fold(d: Decisions, cs: seq<Contribution>): Decisions {
    if cs == [] then d else Decide(Fold(d, cs[..|cs| - 1]), cs[|cs| - 1])
  }

  lemma {:induction false} FoldConcat(d: Decisions, xs: seq<Contribution>, ys: seq<Contribution>)
    ensures Fold(d, xs + ys) == Fold(Fold(d, xs), ys)
  {
    if ys == [] {
      assert xs + ys == xs;
    } else {
      FoldConcat(d, xs, ys[..|ys| - 1]);
      assert (xs + ys)[..|xs + ys| - 1] == xs + ys[..|ys| - 1];
    }
  }

  method ApplyDecision(decisions: Decisions, rule: Rule, ips: map<string, string>, current: string)
    returns (d: Decisions)
    ensures d == Fold(decisions, Contributions(rule, RulePeers(rule, ips, current)))
  {
    hide RulePeers;
    d := decisions;
    var peers := ResolveRulePeers(rule, ips, current);
    ghost var all := Contributions(rule, peers);
    for i := 0 to |peers|
      invariant d == Fold(decisions, all[..i])
    {
      var f := Flow(peers[i], rule.port, rule.protocol);
      if f !in d || d[f] != ALLOW {
        d := d[f := rule.action];
      }
      assert all[..i + 1][..i] == all[..i];
    }
    assert all[..|all|] == all;
  }

  function IngressRules(policies: seq<Compiled>): seq<Rule> {
    if policies == [] then [] else IngressRules(policies[..|policies| - 1]) + policies[|policies| - 1].ingress
  }

  function EgressRules(policies: seq<Compiled>): seq<Rule> {
    if policies == [] then [] else EgressRules(policies[..|policies| - 1]) + policies[|policies| - 1].egress
  }

  method ApplyRules(decisions: Decisions, ghost before: seq<Rule>, rules: seq<Rule>, ips: map<string, string>,
                    current: string)
    returns (d: Decisions)
    requires decisions == Fold(map[], AllContributions(before, ips, current))
    ensures d == Fold(map[], AllContributions(before + rules, ips, current))
  {
    hide RulePeers, Contributions;
    d := decisions;
    assert before + rules[..0] == before;
    for i := 0 to |rules|
      invariant d == Fold(map[], AllContributions(before + rules[..i], ips, current))
    {
      ghost var soFar := before + rules[..i];
      d := ApplyDecision(d, rules[i], ips, current);
      assert before + rules[..i + 1] == soFar + [rules[i]];
      assert (soFar + [rules[i]])[..|soFar|] == soFar;
      FoldConcat(map[], AllContributions(soFar, ips, current),
                 Contributions(rules[i], RulePeers(rules[i], ips, current)));
    }
    assert rules[..|rules|] == rules;
  }

  /** The decision maps of Evaluate, before they are emitted. */
  method EvaluateDecisions(current: string, members: seq<Member>, policies: seq<Compiled>)
    returns (ingress: Decisions, egress: Decisions)
    ensures ingress == Fold(map[], AllContributions(IngressRules(policies), AddressByName(members), current))
    ensures egress == Fold(map[], AllContributions(EgressRules(policies), AddressByName(members), current))
  {
    hide AllContributions, AddressByName;
    var ips := AddressByName(members);
    ingress, egress := map[], map[];
    NothingContributed(ips, current);
    for i := 0 to |policies|
      invariant ingress == Fold(map[], AllContributions(IngressRules(policies[..i]), ips, current))
      invariant egress == Fold(map[], AllContributions(EgressRules(policies[..i]), ips, current))
    {
      assert policies[..i + 1][..i] == policies[..i];
      ingress := ApplyRules(ingress, IngressRules(policies[..i]), policies[i].ingress, ips, current);
      egress := ApplyRules(egress, EgressRules(policies[..i]), policies[i].egress, ips, current);
    }
    assert policies[..|policies|] == policies;
  }

  lemma NothingContributed(ips: map<string, string>, current: string)
    ensures AllContributions([], ips, current) == []
  {
  }

  // ---------------------------------------------------------------- what a decision means

  /** A flow is decided exactly when something was contributed for it; it is ALLOW when some
      contribution says so, and otherwise the last word. */
  lemma {:induction false} DecisionMeaning(cs: seq<Contribution>, f: Flow)
    ensures f in Fold(map[], cs) <==> exists c :: c in cs && c.flow == f
    ensures f in Fold(map[], cs) ==> Contribution(f, Fold(map[], cs)[f]) in cs
    ensures Contribution(f, ALLOW) in cs ==> Fold(map[], cs)[f] == ALLOW
  {
    if cs != [] {
      var init, last := cs[..|cs| - 1], cs[|cs| - 1];
      DecisionMeaning(init, f);
      assert cs == init + [last];
      if f in Fold(map[], init) {
        var c :| c in init && c.flow == f;
        assert c in cs;
      }
      if last.flow == f {
        assert last in cs;
      }
    }
  }

  /** Without an ALLOW the last contribution decides. */
  lemma LastWord(cs: seq<Contribution>, x: Contribution)
    requires Contribution(x.flow, ALLOW) !in cs
    ensures x.flow in Fold(map[], cs + [x]) && Fold(map[], cs + [x])[x.flow] == x.action
  {
    DecisionMeaning(cs, x.flow);
    assert (cs + [x])[..|cs|] == cs;
  }

  ghost predicate Canonical(cs: seq<Contribution>) {
    forall c | c in cs :: c.action == ALLOW || c.action == DENY
  }

  /** With actions exactly ALLOW and DENY the decisions depend only on which contributions there are:
      permuting policies, rules or peers changes nothing. */
  lemma OrderIrrelevant(xs: seq<Contribution>, ys: seq<Contribution>)
    requires Canonical(xs) && forall c :: c in xs <==> c in ys
    ensures Fold(map[], xs) == Fold(map[], ys)
  {
    var dx, dy := Fold(map[], xs), Fold(map[], ys);
    forall f ensures (f in dx <==> f in dy) && (f in dx ==> dx[f] == dy[f]) {
      DecisionMeaning(xs, f);
      DecisionMeaning(ys, f);
    }
  }

  lemma {:induction false} ContributedBy(rules: seq<Rule>, ips: map<string, string>, current: string, c: Contribution)
    ensures c in AllContributions(rules, ips, current) <==>
      exists r :: r in rules && c.flow.peer in RulePeers(r, ips, current) &&
        c == Contribution(Flow(c.flow.peer, r.port, r.protocol), r.action)
  {
    if rules != [] {
      var init, last := rules[..|rules| - 1], rules[|rules| - 1];
      ContributedBy(init, ips, current, c);
      assert rules == init + [last];
      var peers := RulePeers(last, ips, current);
      assert c in Contributions(last, peers) <==>
        c.flow.peer in peers && c == Contribution(Flow(c.flow.peer, last.port, last.protocol), last.action) by {
        if c.flow.peer in peers && c == Contribution(Flow(c.flow.peer, last.port, last.protocol), last.action) {
          var i :| 0 <= i < |peers| && peers[i] == c.flow.peer;
          assert Contributions(last, peers)[i] == c;
        }
      }
      hide RulePeers, Contributions;
    }
  }

  lemma {:induction false} RulesOfPolicies(policies: seq<Compiled>)
    ensures forall r :: r in IngressRules(policies) <==> exists p :: p in policies && r in p.ingress
    ensures forall r :: r in EgressRules(policies) <==> exists p :: p in policies && r in p.egress
  {
    if policies != [] {
      var init, last := policies[..|policies| - 1], policies[|policies| - 1];
      RulesOfPolicies(init);
      assert policies == init + [last];
    }
  }

  /** Two policy lists with the same rules, in whatever order and grouping. */
  ghost predicate SameRules(ps: seq<Compiled>, qs: seq<Compiled>) {
    && (forall r :: r in IngressRules(ps) <==> r in IngressRules(qs))
    && (forall r :: r in EgressRules(ps) <==> r in EgressRules(qs))
  }

  predicate CanonicalRules(rules: seq<Rule>) {
    forall r | r in rules :: r.action == ALLOW || r.action == DENY
  }

  lemma SameDecisions(xs: seq<Rule>, ys: seq<Rule>, ips: map<string, string>, current: string)
    requires CanonicalRules(xs) && forall r :: r in xs <==> r in ys
    ensures Fold(map[], AllContributions(xs, ips, current)) == Fold(map[], AllContributions(ys, ips, current))
  {
    hide RulePeers, Fold;
    var a, b := AllContributions(xs, ips, current), AllContributions(ys, ips, current);
    forall c ensures (c in a <==> c in b) && (c in a ==> c.action == ALLOW || c.action == DENY) {
      ContributedBy(xs, ips, current, c);
      ContributedBy(ys, ips, current, c);
    }
    OrderIrrelevant(a, b);
  }

  /** Permuting policies, or rules within a policy, leaves both decision maps as they are. */
  lemma PolicyOrderIrrelevant(ps: seq<Compiled>, qs: seq<Compiled>, ips: map<string, string>, current: string)
    requires SameRules(ps, qs) && CanonicalRules(IngressRules(ps)) && CanonicalRules(EgressRules(ps))
    ensures Fold(map[], AllContributions(IngressRules(ps), ips, current)) ==
      Fold(map[], AllContributions(IngressRules(qs), ips, current))
    ensures Fold(map[], AllContributions(EgressRules(ps), ips, current)) ==
      Fold(map[], AllContributions(EgressRules(qs), ips, current))
  {
    SameDecisions(IngressRules(ps), IngressRules(qs), ips, current);
    SameDecisions(EgressRules(ps), EgressRules(qs), ips, current);
  }

  lemma PermutedPoliciesSameRules(ps: seq<Compiled>, qs: seq<Compiled>)
    requires multiset(ps) == multiset(qs)
    ensures SameRules(ps, qs)
  {
    RulesOfPolicies(ps);
    RulesOfPolicies(qs);
    assert forall p :: p in ps <==> p in multiset(ps);
    assert forall p :: p in qs <==> p in multiset(qs);
  }
}
