/** From the stored policies to the verdict on a packet: the compiler, the decisions and the firewall chain
    composed, for one peer and one state of the store. */
module PacketPath {
  import opened Prelude
  import opened KeyNames
  import opened Policy
  import opened RuleCompiler
  import opened Firewall
  import opened Agreement
  import opened Store

  datatype Direction = Inbound | Outbound

  function SpecsOf(d: Direction, p: LatticePolicy): seq<TrafficSpec> { if d.Inbound? then p.ingress else p.egress }

  function RulesIn(d: Direction, c: Compiled): seq<Rule> { if d.Inbound? then c.ingress else c.egress }

  function AllRules(d: Direction, compiled: seq<Compiled>): seq<Rule> {
    if d.Inbound? then IngressRules(compiled) else EgressRules(compiled)
  }

  // ---------------------------------------------------------------- what the policies say

  /** A traffic rule names an address: by a peer it selects, or as a block of its own. */
  ghost predicate Names(spec: TrafficSpec, members: seq<Member>, current: string, a: string) {
    Mentions(FromAPeer, [spec], members, current, a) || Mentions(FromABlock, [spec], members, current, a)
  }

  /** A traffic rule is about a flow: an address it names, and one of its ports, or port 0 of no protocol if it has
      none. */
  ghost predicate IsAbout(spec: TrafficSpec, members: seq<Member>, current: string, f: Flow) {
    Names(spec, members, current, f.peer) && OnPort(spec, f)
  }

  predicate OnPort(spec: TrafficSpec, f: Flow) {
    if spec.ports == [] then f.port == 0 && f.protocol == "" else Port(f.port, f.protocol) in spec.ports
  }

  ghost predicate Speaks(d: Direction, p: LatticePolicy, members: seq<Member>, current: string, f: Flow) {
    exists spec :: spec in SpecsOf(d, p) && IsAbout(spec, members, current, f)
  }

  /** A policy says an action of a flow. */
  ghost predicate Says(d: Direction, p: LatticePolicy, members: seq<Member>, current: string, c: Contribution) {
    Speaks(d, p, members, current, c.flow) && c.action == if p.action == "" then "ALLOW" else p.action
  }

  // ---------------------------------------------------------------- what the compiler makes of it

  lemma {:induction false} ExpandedPairs(specs: seq<TrafficSpec>, it: (TrafficSpec, Port))
    ensures it in Expanded(specs) <==> it.0 in specs && OnPort(it.0, Flow("", it.1.port, it.1.protocol))
  {
    if specs != [] {
      var init, last := specs[..|specs| - 1], specs[|specs| - 1];
      ExpandedPairs(init, it);
      assert specs == init + [last];
      PairsOnPorts(last, PortsOf(last), it);
      assert it in Expanded(specs) <==> it in Expanded(init) || it in OnPorts(last, PortsOf(last));
    }
  }

  lemma PairsOnPorts(s: TrafficSpec, ports: seq<Port>, it: (TrafficSpec, Port))
    ensures it in OnPorts(s, ports) <==> it.0 == s && it.1 in ports
  {
    if it.0 == s && it.1 in ports {
      var i :| 0 <= i < |ports| && ports[i] == it.1;
      assert OnPorts(s, ports)[i] == it;
    }
  }

  /** One compiled rule contributes what its policy says of its traffic rule and port. */
  lemma RuleSays(digest: Digest, members: seq<Member>, nodes: seq<Member>, p: LatticePolicy, it: (TrafficSpec, Port),
                 rule: Rule, current: string, a: string)
    requires Consistent(digest, members, nodes, [p]) && RuleFor(digest, nodes, p, it, rule)
    ensures a in RulePeers(rule, AddressByName(members), current) <==> Names(it.0, members, current, a)
    ensures rule.action == if p.action == "" then "ALLOW" else p.action
    ensures rule.port == it.1.port && rule.protocol == it.1.protocol
  {
    RuleAddress(digest, members, nodes, p, it, rule, current, a, FromAPeer);
    RuleAddress(digest, members, nodes, p, it, rule, current, a, FromABlock);
    hide Mentions, Consistent, AddressByName, NamedPeers, NonBlank, IsListed, ExtractCIDRs;
  }

  /** The rules of one direction of one policy contribute what the policy says. */
  lemma PolicySays(digest: Digest, members: seq<Member>, nodes: seq<Member>, d: Direction, p: LatticePolicy,
                   rules: seq<Rule>, current: string, c: Contribution)
    requires Consistent(digest, members, nodes, [p]) && RulesFor(digest, nodes, p, Expanded(SpecsOf(d, p)), rules)
    ensures Says(d, p, members, current, c) <==>
      exists r :: r in rules && GivenBy(r, members, current, c)
  {
    hide Consistent, RuleFor, Names, RulePeers, AddressByName, PortsOf;
    var its := Expanded(SpecsOf(d, p));
    if r :| r in rules && GivenBy(r, members, current, c) {
      var i :| 0 <= i < |rules| && rules[i] == r;
      RuleSays(digest, members, nodes, p, its[i], r, current, c.flow.peer);
      ExpandedPairs(SpecsOf(d, p), its[i]);
      assert its[i] in its && IsAbout(its[i].0, members, current, c.flow);
    }
    if Says(d, p, members, current, c) {
      var spec :| spec in SpecsOf(d, p) && IsAbout(spec, members, current, c.flow);
      var it := (spec, Port(c.flow.port, c.flow.protocol));
      ExpandedPairs(SpecsOf(d, p), it);
      var i :| 0 <= i < |its| && its[i] == it;
      RuleSays(digest, members, nodes, p, it, rules[i], current, c.flow.peer);
      assert rules[i] in rules && GivenBy(rules[i], members, current, c);
    }
  }

  predicate GivenBy(r: Rule, members: seq<Member>, current: string, c: Contribution) {
    && c.flow.peer in RulePeers(r, AddressByName(members), current)
    && c == Contribution(Flow(c.flow.peer, r.port, r.protocol), r.action)
  }

  function Contributed(d: Direction, compiled: seq<Compiled>, members: seq<Member>,
                       current: string): seq<Contribution> {
    AllContributions(AllRules(d, compiled), AddressByName(members), current)
  }

  /** What reaches the decisions is what the policies say, no more and no less. */
  lemma ContributedIffSaid(digest: Digest, members: seq<Member>, nodes: seq<Member>, policies: seq<LatticePolicy>,
                           compiled: seq<Compiled>, current: string, d: Direction, c: Contribution)
    requires Consistent(digest, members, nodes, policies) && AllCompiled(digest, nodes, policies, compiled)
    ensures c in Contributed(d, compiled, members, current) <==>
      exists p :: p in policies && Says(d, p, members, current, c)
  {
    hide Consistent, Says, RulesFor, RulePeers, AddressByName, AllContributions, IngressRules, EgressRules, Expanded;
    ContributedBy(AllRules(d, compiled), AddressByName(members), current, c);
    RulesOfPolicies(compiled);
    forall i | 0 <= i < |policies|
      ensures Says(d, policies[i], members, current, c) <==>
        exists r :: r in RulesIn(d, compiled[i]) && GivenBy(r, members, current, c)
    {
      OnePolicyConsistent(digest, members, nodes, policies, policies[i]);
      assert CompiledFrom(digest, nodes, policies[i], compiled[i]);
      PolicySays(digest, members, nodes, d, policies[i], RulesIn(d, compiled[i]), current, c);
    }
    if c in Contributed(d, compiled, members, current) {
      var r :| r in AllRules(d, compiled) && GivenBy(r, members, current, c);
      var x :| x in compiled && r in RulesIn(d, x);
      var i :| 0 <= i < |compiled| && compiled[i] == x;
      assert policies[i] in policies && Says(d, policies[i], members, current, c);
    }
    if p :| p in policies && Says(d, p, members, current, c) {
      var i :| 0 <= i < |policies| && policies[i] == p;
      var r :| r in RulesIn(d, compiled[i]) && GivenBy(r, members, current, c);
      assert compiled[i] in compiled && r in AllRules(d, compiled);
    }
  }

  // ---------------------------------------------------------------- the store

  /** A stored policy of the peer's namespace and network that applies to the peer. */
  predicate Applies(o: Objects, me: Ref, r: Ref)
    requires me in o.peers
  {
    && r in o.policies && r.ns == me.ns && Matches(o.policies[r].applies, o.peers[me].labels)
    && match o.peers[me].specNet
       case None => o.policies[r].network == ""
       case Some(net) => Ref(me.ns, net) in o.networks && o.policies[r].network == net
  }

  lemma SnapshotPolicies(digest: Digest, o: Objects, me: Ref, s: Snapshot, p: LatticePolicy)
    requires IsSnapshot(digest, o, me, s)
    ensures p in s.policies <==> exists r :: Applies(o, me, r) && o.policies[r] == p
  {
    hide Matches, MembersOf;
  }

  lemma InStore(digest: Digest, o: Objects, me: Ref, s: Snapshot)
    requires IsSnapshot(digest, o, me, s)
    ensures me in o.peers
  {
  }

  /** Some stored policy that applies to the peer allows a flow that covers the packet. */
  ghost predicate PolicyAllows(o: Objects, me: Ref, members: seq<Member>, d: Direction, packet: Packet)
    requires me in o.peers
  {
    exists r, f :: Applies(o, me, r) && Covers(f, packet) && Allows(d, o.policies[r], members, me.name, f)
  }

  ghost predicate Allows(d: Direction, p: LatticePolicy, members: seq<Member>, current: string, f: Flow) {
    (p.action == "" || IsAllow(p.action)) && Speaks(d, p, members, current, f)
  }

  lemma AllowedIffContributed(digest: Digest, o: Objects, me: Ref, s: Snapshot, nodes: seq<Member>,
                              compiled: seq<Compiled>, d: Direction, packet: Packet)
    requires IsSnapshot(digest, o, me, s) && NodesOf(o, me.ns, nodes)
    requires AllCompiled(digest, nodes, s.policies, compiled)
    ensures PolicyAllows(o, me, s.members, d, packet) <==>
      exists c :: c in Contributed(d, compiled, s.members, me.name) && IsAllow(c.action) && Covers(c.flow, packet)
  {
    hide IsSnapshot, NodesOf, Consistent, AllCompiled, Speaks, Covers, IsAllow, Contributed, Matches;
    SnapshotConsistent(digest, o, me, s, nodes);
    InStore(digest, o, me, s);
    if c :| c in Contributed(d, compiled, s.members, me.name) && IsAllow(c.action) && Covers(c.flow, packet) {
      ContributedIffSaid(digest, s.members, nodes, s.policies, compiled, me.name, d, c);
      var p :| p in s.policies && Says(d, p, s.members, me.name, c);
      SnapshotPolicies(digest, o, me, s, p);
      var r :| Applies(o, me, r) && o.policies[r] == p;
      EmptyAllows();
      assert Allows(d, p, s.members, me.name, c.flow);
    }
    if r, f :| Applies(o, me, r) && Covers(f, packet) && Allows(d, o.policies[r], s.members, me.name, f) {
      EmptyAllows();
      var c := Contribution(f, if o.policies[r].action == "" then "ALLOW" else o.policies[r].action);
      SnapshotPolicies(digest, o, me, s, o.policies[r]);
      ContributedIffSaid(digest, s.members, nodes, s.policies, compiled, me.name, d, c);
    }
  }

  lemma EmptyAllows()
    ensures IsAllow("ALLOW")
  {
  }

  function Decided(d: Direction, compiled: seq<Compiled>, members: seq<Member>, current: string): Decisions {
    Fold(map[], Contributed(d, compiled, members, current))
  }

  /** For every peer, state of the store, direction and emission order: a packet of a new connection gets through
      the peer's chain only if some stored policy that applies to the peer allows it. */
  lemma PacketNeedsPolicy(digest: Digest, o: Objects, me: Ref, s: Snapshot, nodes: seq<Member>,
                          compiled: seq<Compiled>, d: Direction, chain: string, order: seq<Flow>, packet: Packet)
    requires IsSnapshot(digest, o, me, s) && NodesOf(o, me.ns, nodes)
    requires AllCompiled(digest, nodes, s.policies, compiled)
    requires !packet.established && Enumerates(order, Decided(d, compiled, s.members, me.name).Keys)
    requires Accepted(ChainOf(chain, order, Decided(d, compiled, s.members, me.name)), packet)
    ensures PolicyAllows(o, me, s.members, d, packet)
  {
    hide IsSnapshot, NodesOf, AllCompiled, PolicyAllows, Contributed, Accepted, ChainOf, Fold, Covers, IsAllow;
    AcceptedNeedsAllow(chain, order, Contributed(d, compiled, s.members, me.name), packet);
    AllowedIffContributed(digest, o, me, s, nodes, compiled, d, packet);
  }

  predicate PlainActions(o: Objects) {
    forall r | r in o.policies :: o.policies[r].action in {"", ALLOW, DENY}
  }

  lemma PlainContributions(digest: Digest, o: Objects, me: Ref, s: Snapshot, nodes: seq<Member>,
                           compiled: seq<Compiled>, d: Direction)
    requires IsSnapshot(digest, o, me, s) && NodesOf(o, me.ns, nodes)
    requires AllCompiled(digest, nodes, s.policies, compiled)
    requires PlainActions(o)
    ensures Canonical(Contributed(d, compiled, s.members, me.name))
  {
    hide IsSnapshot, NodesOf, Consistent, AllCompiled, Speaks, Contributed, Matches;
    SnapshotConsistent(digest, o, me, s, nodes);
    InStore(digest, o, me, s);
    forall c | c in Contributed(d, compiled, s.members, me.name) ensures c.action in {ALLOW, DENY} {
      ContributedIffSaid(digest, s.members, nodes, s.policies, compiled, me.name, d, c);
      var p :| p in s.policies && Says(d, p, s.members, me.name, c);
      SnapshotPolicies(digest, o, me, s, p);
    }
  }

  /** With plain actions, and where the covering decisions do not disagree, it gets through exactly then. */
  lemma PacketIffPolicy(digest: Digest, o: Objects, me: Ref, s: Snapshot, nodes: seq<Member>,
                        compiled: seq<Compiled>, d: Direction, chain: string, order: seq<Flow>, packet: Packet)
    requires IsSnapshot(digest, o, me, s) && NodesOf(o, me.ns, nodes)
    requires AllCompiled(digest, nodes, s.policies, compiled)
    requires !packet.established && Enumerates(order, Decided(d, compiled, s.members, me.name).Keys)
    requires PlainActions(o) && NoConflict(Decided(d, compiled, s.members, me.name), packet)
    ensures Accepted(ChainOf(chain, order, Decided(d, compiled, s.members, me.name)), packet) <==>
      PolicyAllows(o, me, s.members, d, packet)
  {
    hide IsSnapshot, NodesOf, AllCompiled, PolicyAllows, Contributed, Accepted, ChainOf, Fold, Covers, IsAllow;
    hide PlainActions, Canonical, NoConflict;
    PlainContributions(digest, o, me, s, nodes, compiled, d);
    AcceptedIffAllowed(chain, order, Contributed(d, compiled, s.members, me.name), packet);
    AllowedIffContributed(digest, o, me, s, nodes, compiled, d, packet);
  }
}
