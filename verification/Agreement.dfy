/** The tunnel list and the firewall rules of a peer are computed by separate code, one from the
    policies' selectors directly, the other by way of names and decisions. Over one consistent view of
    the store they speak of the same peers. */
module Agreement {
  import opened Prelude
  import opened KeyNames
  import opened Policy
  import opened RuleCompiler
  import opened Firewall

  /** One view of the store: the network members (peers of the network with an address) are among the
      listed peers of the namespace, and the policies are those of the network. */
  ghost predicate Consistent(digest: Digest, members: seq<Member>, nodes: seq<Member>, policies: seq<LatticePolicy>) {
    && DistinctNames(members) && DistinctNames(nodes)
    && (forall m | m in members ::
          m.address.Some? && exists x :: x in nodes && x.name == m.name && x.labels == m.labels)
    && (forall p, m | p in policies && m in members :: InNetwork(digest, p.network, m.labels))
  }

  ghost predicate AllCompiled(digest: Digest, nodes: seq<Member>, policies: seq<LatticePolicy>,
                              compiled: seq<Compiled>) {
    |compiled| == |policies| &&
    forall i :: 0 <= i < |policies| ==> CompiledFrom(digest, nodes, policies[i], compiled[i])
  }

  /** Where an address in a rule comes from: a peer the rule names, or an address block of its own. */
  datatype Origin = FromAPeer | FromABlock

  function Addresses(origin: Origin, rule: Rule, members: seq<Member>, current: string): seq<string> {
    match origin
    case FromAPeer => NamedPeers(rule.peerNames, AddressByName(members), current)
    case FromABlock => NonBlank(rule.cidrs)
  }

  ghost predicate InRulesOf(origin: Origin, rules: seq<Rule>, members: seq<Member>, current: string, a: string) {
    exists r :: r in rules && a in Addresses(origin, r, members, current)
  }

  /** An address of that origin in some rule of the compiled policies, in either direction. */
  ghost predicate InRules(origin: Origin, compiled: seq<Compiled>, members: seq<Member>, current: string, a: string) {
    || InRulesOf(origin, IngressRules(compiled), members, current, a)
    || InRulesOf(origin, EgressRules(compiled), members, current, a)
  }

  /** An address the decisions of either direction are about. */
  ghost predicate IsDecided(compiled: seq<Compiled>, members: seq<Member>, current: string, a: string) {
    || (exists f :: f in DecisionsOf(IngressRules(compiled), members, current) && f.peer == a)
    || (exists f :: f in DecisionsOf(EgressRules(compiled), members, current) && f.peer == a)
  }

  ghost predicate TunnelAddress(current: Member, members: seq<Member>, policies: seq<LatticePolicy>, a: string) {
    && a != ""
    && exists m ::
         m in members && IsComputedPeer(current, policies, m) && m.address.Some? && CleanIP(m.address.value) == a
  }

  ghost predicate HasBlock(specs: seq<TrafficSpec>, a: string) {
    !IsBlank(a) && a != "" && exists s, x :: s in specs && x in s.selections && x.ipBlock == Some(a)
  }

  ghost predicate BlockAddress(policies: seq<LatticePolicy>, a: string) {
    exists p :: p in policies && (HasBlock(p.ingress, a) || HasBlock(p.egress, a))
  }

  // ---------------------------------------------------------------- one rule

  /** A member other than the current one, at that address. */
  predicate IsAt(m: Member, members: seq<Member>, current: string, a: string) {
    a != "" && m in members && m.name != current && m.address.Some? && CleanIP(m.address.value) == a
  }

  ghost predicate ReachedAt(specs: seq<TrafficSpec>, members: seq<Member>, current: string, a: string) {
    exists m :: IsAt(m, members, current, a) && Reaches(specs, m.labels)
  }

  ghost predicate SelectedAt(sels: seq<Selection>, members: seq<Member>, current: string, a: string) {
    exists m :: IsAt(m, members, current, a) && SelectedBy(sels, m.labels)
  }

  /** What the rules of one direction of a policy say of an address, by origin. */
  ghost predicate Mentions(origin: Origin, specs: seq<TrafficSpec>, members: seq<Member>, current: string, a: string) {
    match origin
    case FromAPeer => ReachedAt(specs, members, current, a)
    case FromABlock => HasBlock(specs, a)
  }

  lemma OneMember(members: seq<Member>, m: Member)
    requires DistinctNames(members) && m in members && m.address.Some?
    ensures m.name in AddressByName(members) && AddressByName(members)[m.name] == CleanIP(m.address.value)
  {
    hide CleanIP, AddressByName;
    AddressOf(members, m.name);
    SameNameSameMember(members, m);
  }

  lemma NamedIffSelected(digest: Digest, members: seq<Member>, nodes: seq<Member>, p: LatticePolicy,
                         it: (TrafficSpec, Port), rule: Rule, current: string, a: string)
    requires Consistent(digest, members, nodes, [p]) && RuleFor(digest, nodes, p, it, rule)
    ensures a in NamedPeers(rule.peerNames, AddressByName(members), current) <==>
      SelectedAt(it.0.selections, members, current, a)
  {
    hide CleanIP, AddressByName, NamedPeers, InNetwork, SelectedBy, ExtractCIDRs;
    var ips := AddressByName(members);
    IsNamedPeer(rule.peerNames, ips, current, a);
    if a in NamedPeers(rule.peerNames, ips, current) {
      var n :| n in rule.peerNames && n != current && n in ips && ips[n] == a;
      var m := ListedMember(digest, members, nodes, p, it.0.selections, n);
      OneMember(members, m);
    }
    if SelectedAt(it.0.selections, members, current, a) {
      var m :| IsAt(m, members, current, a) && SelectedBy(it.0.selections, m.labels);
      OneMember(members, m);
      MemberListed(digest, members, nodes, p, it.0.selections, m);
    }
  }

  lemma ListedMember(digest: Digest, members: seq<Member>, nodes: seq<Member>, p: LatticePolicy, sels: seq<Selection>,
                     n: string)
    returns (m: Member)
    requires Consistent(digest, members, nodes, [p]) && IsListed(digest, nodes, p.network, sels, n)
    requires n in AddressByName(members)
    ensures m in members && m.name == n && m.address.Some? && SelectedBy(sels, m.labels)
  {
    hide CleanIP, AddressByName, InNetwork, SelectedBy;
    AddressOf(members, n);
    m :| m in members && m.name == n && m.address.Some?;
    var x :| x in nodes && x.name == n && SelectedBy(sels, x.labels);
    SameNameSameMember(nodes, x);
  }

  lemma MemberListed(digest: Digest, members: seq<Member>, nodes: seq<Member>, p: LatticePolicy, sels: seq<Selection>,
                     m: Member)
    requires Consistent(digest, members, nodes, [p]) && m in members && SelectedBy(sels, m.labels)
    ensures IsListed(digest, nodes, p.network, sels, m.name)
  {
    hide InNetwork, SelectedBy;
    assert p in [p];
    var x :| x in nodes && x.name == m.name && x.labels == m.labels;
  }

  lemma RuleAddress(digest: Digest, members: seq<Member>, nodes: seq<Member>, p: LatticePolicy,
                    it: (TrafficSpec, Port), rule: Rule, current: string, a: string, origin: Origin)
    requires Consistent(digest, members, nodes, [p]) && RuleFor(digest, nodes, p, it, rule)
    ensures a in Addresses(origin, rule, members, current) <==> Mentions(origin, [it.0], members, current, a)
  {
    match origin
    case FromAPeer =>
      NamedIffSelected(digest, members, nodes, p, it, rule, current, a);
      hide AddressByName, NamedPeers, SelectedAt, ReachedAt, Consistent, IsListed;
      OneSpec(it.0, members, current, a);
    case FromABlock =>
      hide ExtractCIDRs, IsBlank, NonBlank, Consistent, IsListed;
      IsNonBlank(rule.cidrs, a);
      ExtractedCIDR(it.0.selections, a);
      assert it.0 in [it.0];
  }

  lemma OneSpec(s: TrafficSpec, members: seq<Member>, current: string, a: string)
    ensures ReachedAt([s], members, current, a) <==> SelectedAt(s.selections, members, current, a)
  {
    hide IsAt, Selects;
    assert s in [s];
    assert forall l: Labels :: Reaches([s], l) <==> SelectedBy(s.selections, l);
  }

  // ---------------------------------------------------------------- one direction of one policy

  lemma DirectionAddress(digest: Digest, members: seq<Member>, nodes: seq<Member>, p: LatticePolicy,
                         specs: seq<TrafficSpec>, rules: seq<Rule>, current: string, a: string, origin: Origin)
    requires Consistent(digest, members, nodes, [p]) && RulesFor(digest, nodes, p, Expanded(specs), rules)
    ensures InRulesOf(origin, rules, members, current, a) <==> Mentions(origin, specs, members, current, a)
  {
    hide Addresses, RuleFor, Consistent, Mentions;
    var its := Expanded(specs);
    ExpandedCovers(specs);
    hide Expanded;
    if InRulesOf(origin, rules, members, current, a) {
      var r :| r in rules && a in Addresses(origin, r, members, current);
      var i :| 0 <= i < |rules| && rules[i] == r;
      RuleAddress(digest, members, nodes, p, its[i], r, current, a, origin);
      assert its[i] in its && its[i].0 in specs;
      SomeSpec(specs, members, current, a, origin);
    }
    if Mentions(origin, specs, members, current, a) {
      SomeSpec(specs, members, current, a, origin);
      var s :| s in specs && Mentions(origin, [s], members, current, a);
      var it :| it in its && it.0 == s;
      var i :| 0 <= i < |its| && its[i] == it;
      RuleAddress(digest, members, nodes, p, it, rules[i], current, a, origin);
      assert rules[i] in rules;
    }
  }

  lemma SomeSpec(specs: seq<TrafficSpec>, members: seq<Member>, current: string, a: string, origin: Origin)
    ensures Mentions(origin, specs, members, current, a) <==>
      exists s :: s in specs && Mentions(origin, [s], members, current, a)
  {
    match origin
    case FromAPeer => SomeReach(specs, members, current, a);
    case FromABlock => SomeBlock(specs, a);
  }

  lemma SomeReach(specs: seq<TrafficSpec>, members: seq<Member>, current: string, a: string)
    ensures ReachedAt(specs, members, current, a) <==> exists s :: s in specs && ReachedAt([s], members, current, a)
  {
    hide IsAt, Selects;
    if m :| IsAt(m, members, current, a) && Reaches(specs, m.labels) {
      var s, x :| s in specs && x in s.selections && Selects(x, m.labels);
      assert s in [s] && Reaches([s], m.labels);
    }
    if s :| s in specs && ReachedAt([s], members, current, a) {
      var m :| IsAt(m, members, current, a) && Reaches([s], m.labels);
      var t, x :| t in [s] && x in t.selections && Selects(x, m.labels);
      assert t in specs && Reaches(specs, m.labels);
    }
  }

  lemma SomeBlock(specs: seq<TrafficSpec>, a: string)
    ensures HasBlock(specs, a) <==> exists s :: s in specs && HasBlock([s], a)
  {
    hide IsBlank;
    if HasBlock(specs, a) {
      var s, x :| s in specs && x in s.selections && x.ipBlock == Some(a);
      assert s in [s] && HasBlock([s], a);
    }
    if s :| s in specs && HasBlock([s], a) {
      var t, x :| t in [s] && x in t.selections && x.ipBlock == Some(a);
      assert t in specs;
    }
  }

  // ---------------------------------------------------------------- all policies

  lemma DecidedAddress(rules: seq<Rule>, members: seq<Member>, current: string, a: string)
    ensures (exists f :: f in DecisionsOf(rules, members, current) && f.peer == a) <==>
      InRulesOf(FromAPeer, rules, members, current, a) || InRulesOf(FromABlock, rules, members, current, a)
  {
    hide AddressByName, AllContributions, Fold, NamedPeers, NonBlank;
    var ips := AddressByName(members);
    var cs := AllContributions(rules, ips, current);
    if f :| f in DecisionsOf(rules, members, current) && f.peer == a {
      DecisionMeaning(cs, f);
      var c :| c in cs && c.flow == f;
      ContributedBy(rules, ips, current, c);
    }
    if r :| r in rules && a in RulePeers(r, ips, current) {
      var c := Contribution(Flow(a, r.port, r.protocol), r.action);
      ContributedBy(rules, ips, current, c);
      DecisionMeaning(cs, c.flow);
    }
  }

  lemma OnePolicyConsistent(digest: Digest, members: seq<Member>, nodes: seq<Member>, policies: seq<LatticePolicy>,
                            p: LatticePolicy)
    requires Consistent(digest, members, nodes, policies) && p in policies
    ensures Consistent(digest, members, nodes, [p])
  {
    hide InNetwork, DistinctNames;
  }

  lemma PolicyAddress(digest: Digest, members: seq<Member>, nodes: seq<Member>, policies: seq<LatticePolicy>,
                      compiled: seq<Compiled>, i: nat, current: string, a: string, origin: Origin)
    requires Consistent(digest, members, nodes, policies) && AllCompiled(digest, nodes, policies, compiled)
    requires i < |policies|
    ensures InRulesOf(origin, compiled[i].ingress, members, current, a) <==>
      Mentions(origin, policies[i].ingress, members, current, a)
    ensures InRulesOf(origin, compiled[i].egress, members, current, a) <==>
      Mentions(origin, policies[i].egress, members, current, a)
  {
    hide Consistent, RulesFor, InRulesOf, Mentions, Expanded;
    var p := policies[i];
    OnePolicyConsistent(digest, members, nodes, policies, p);
    assert CompiledFrom(digest, nodes, p, compiled[i]);
    DirectionAddress(digest, members, nodes, p, p.ingress, compiled[i].ingress, current, a, origin);
    DirectionAddress(digest, members, nodes, p, p.egress, compiled[i].egress, current, a, origin);
  }

  ghost predicate PolicyMentions(origin: Origin, p: LatticePolicy, members: seq<Member>, current: string, a: string) {
    Mentions(origin, p.ingress, members, current, a) || Mentions(origin, p.egress, members, current, a)
  }

  /** The rules have an address of an origin exactly when some policy mentions it. */
  lemma RulesMention(digest: Digest, members: seq<Member>, nodes: seq<Member>, policies: seq<LatticePolicy>,
                     compiled: seq<Compiled>, current: string, a: string, origin: Origin)
    requires Consistent(digest, members, nodes, policies) && AllCompiled(digest, nodes, policies, compiled)
    ensures InRules(origin, compiled, members, current, a) <==>
      exists p :: p in policies && PolicyMentions(origin, p, members, current, a)
  {
    hide Consistent, CompiledFrom, Mentions, Addresses, IngressRules, EgressRules;
    RulesOfPolicies(compiled);
    if InRules(origin, compiled, members, current, a) {
      var i := SomePolicy(compiled, members, current, a, origin);
      PolicyAddress(digest, members, nodes, policies, compiled, i, current, a, origin);
      assert policies[i] in policies;
    }
    if p :| p in policies && PolicyMentions(origin, p, members, current, a) {
      var i :| 0 <= i < |policies| && policies[i] == p;
      PolicyAddress(digest, members, nodes, policies, compiled, i, current, a, origin);
      assert compiled[i] in compiled;
    }
  }

  lemma SomePolicy(compiled: seq<Compiled>, members: seq<Member>, current: string, a: string, origin: Origin)
    returns (i: nat)
    requires InRules(origin, compiled, members, current, a)
    ensures i < |compiled|
    ensures InRulesOf(origin, compiled[i].ingress, members, current, a)
         || InRulesOf(origin, compiled[i].egress, members, current, a)
  {
    hide Addresses, IngressRules, EgressRules;
    RulesOfPolicies(compiled);
    if InRulesOf(origin, IngressRules(compiled), members, current, a) {
      var r :| r in IngressRules(compiled) && a in Addresses(origin, r, members, current);
      var c :| c in compiled && r in c.ingress;
      i :| 0 <= i < |compiled| && compiled[i] == c;
    } else {
      var r :| r in EgressRules(compiled) && a in Addresses(origin, r, members, current);
      var c :| c in compiled && r in c.egress;
      i :| 0 <= i < |compiled| && compiled[i] == c;
    }
  }

  lemma MentionsAreTunnels(current: Member, members: seq<Member>, policies: seq<LatticePolicy>, a: string)
    requires forall p | p in policies :: Matches(p.applies, current.labels)
    ensures (exists p :: p in policies && PolicyMentions(FromAPeer, p, members, current.name, a)) <==>
      TunnelAddress(current, members, policies, a)
  {
    hide Reaches, Matches, CleanIP;
    if p :| p in policies && PolicyMentions(FromAPeer, p, members, current.name, a) {
      var m :| IsAt(m, members, current.name, a) && (Reaches(p.ingress, m.labels) || Reaches(p.egress, m.labels));
      assert Concerns(p, current.labels, m.labels);
      assert IsComputedPeer(current, policies, m);
    }
    if TunnelAddress(current, members, policies, a) {
      var m :|
        m in members && IsComputedPeer(current, policies, m) && m.address.Some? && CleanIP(m.address.value) == a;
      var p :| p in policies && Concerns(p, current.labels, m.labels);
      assert IsAt(m, members, current.name, a);
      assert PolicyMentions(FromAPeer, p, members, current.name, a);
    }
  }

  /** For one consistent view, and policies that apply to the peer: the addresses that the compiled rules have
      from peers are exactly the addresses of the peer's tunnel list, those they have from blocks are exactly
      the policies' own, and the decisions are about these and no others. */
  lemma TunnelsMatchRules(digest: Digest, current: Member, members: seq<Member>, nodes: seq<Member>,
                          policies: seq<LatticePolicy>, compiled: seq<Compiled>, a: string)
    requires Consistent(digest, members, nodes, policies) && AllCompiled(digest, nodes, policies, compiled)
    requires forall p | p in policies :: Matches(p.applies, current.labels)
    ensures InRules(FromAPeer, compiled, members, current.name, a) <==> TunnelAddress(current, members, policies, a)
    ensures InRules(FromABlock, compiled, members, current.name, a) <==> BlockAddress(policies, a)
    ensures IsDecided(compiled, members, current.name, a) <==>
      InRules(FromAPeer, compiled, members, current.name, a) || InRules(FromABlock, compiled, members, current.name, a)
  {
    hide Consistent, AllCompiled, TunnelAddress, Matches, InRulesOf, DecisionsOf, ReachedAt, HasBlock;
    RulesMention(digest, members, nodes, policies, compiled, current.name, a, FromAPeer);
    RulesMention(digest, members, nodes, policies, compiled, current.name, a, FromABlock);
    MentionsAreTunnels(current, members, policies, a);
    DecidedAddress(IngressRules(compiled), members, current.name, a);
    DecidedAddress(EgressRules(compiled), members, current.name, a);
  }
}
