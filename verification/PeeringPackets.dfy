/** What a peering lets through: the packets that the two policies it stores in a namespace add to those the other
    policies allow, told by labels and addresses. */
module PeeringPackets {
  import opened Prelude
  import opened KeyNames
  import opened Policy
  import opened RuleCompiler
  import opened Firewall
  import opened Agreement
  import opened Store
  import opened PacketPath
  import opened Peering
  import opened PeeringUndo
  import opened PeeringNames
  import opened PeeringReach

  /** Another member that carries the label has the address. */
  ghost predicate LabelledAt(mark: string, members: seq<Member>, current: string, a: string) {
    exists m :: IsAt(m, members, current, a) && HasLabel(m.labels, mark)
  }

  /** The packet's remote address is that of another member that carries the label. */
  ghost predicate FromLabelled(mark: string, members: seq<Member>, current: string, packet: Packet) {
    exists a :: a in packet.covered && LabelledAt(mark, members, current, a)
  }

  // ---------------------------------------------------------------- the two policies

  /** A traffic rule for everybody who carries one mark. */
  predicate IsForLabel(spec: TrafficSpec, mark: string) {
    spec.ports == [] && spec.selections == [Selection(Some(Selector(map[mark := "true"], [])), None)]
  }

  lemma LabelSelects(spec: TrafficSpec, mark: string, labels: Labels)
    requires IsForLabel(spec, mark)
    ensures Reaches([spec], labels) <==> HasLabel(labels, mark)
  {
    var x := spec.selections[0];
    assert x in spec.selections && spec in [spec];
    assert Selects(x, labels) <==> HasLabel(labels, mark) by {
      assert mark in x.peers.value.matchLabels;
    }
  }

  lemma LabelNames(spec: TrafficSpec, mark: string, members: seq<Member>, current: string, f: Flow)
    requires IsForLabel(spec, mark)
    ensures IsAbout(spec, members, current, f) <==>
      f.port == 0 && f.protocol == "" && LabelledAt(mark, members, current, f.peer)
  {
    forall m: Member ensures Reaches([spec], m.labels) <==> HasLabel(m.labels, mark) {
      LabelSelects(spec, mark, m.labels);
    }
    hide Reaches, IsAt, HasLabel;
  }

  lemma OneSpecSpeaks(d: Direction, p: LatticePolicy, spec: TrafficSpec, mark: string, members: seq<Member>,
                      current: string, f: Flow)
    requires SpecsOf(d, p) == [spec] && IsForLabel(spec, mark)
    ensures Speaks(d, p, members, current, f) <==>
      f.port == 0 && f.protocol == "" && LabelledAt(mark, members, current, f.peer)
  {
    LabelNames(spec, mark, members, current, f);
    hide IsAbout;
    assert spec in SpecsOf(d, p);
  }

  /** The access policy speaks of the gateways, in both directions, of all their traffic. */
  lemma AccessSpeaks(d: Direction, net: string, members: seq<Member>, current: string, f: Flow)
    ensures Speaks(d, AccessPolicy(net), members, current, f) <==>
      f.port == 0 && f.protocol == "" && LabelledAt("alattice.io/gateway", members, current, f.peer)
  {
    OneSpecSpeaks(d, AccessPolicy(net), TO_GATEWAY[0], "alattice.io/gateway", members, current, f);
  }

  /** The shadow policy speaks of the shadows, outbound, of all their traffic. */
  lemma ShadowSpeaks(d: Direction, net: string, members: seq<Member>, current: string, f: Flow)
    ensures Speaks(d, ShadowPolicy(net), members, current, f) <==>
      d.Outbound? && f.port == 0 && f.protocol == "" && LabelledAt("alattice.io/shadow", members, current, f.peer)
  {
    if d.Outbound? {
      OneSpecSpeaks(d, ShadowPolicy(net), TO_SHADOW[0], "alattice.io/shadow", members, current, f);
    }
  }

  /** Who each of them applies to. */
  lemma AppliesTo(net: string, labels: Labels)
    ensures Matches(AccessPolicy(net).applies, labels)
    ensures Matches(ShadowPolicy(net).applies, labels) <==> HasLabel(labels, "alattice.io/gateway")
  {
    var sel := ShadowPolicy(net).applies;
    assert GATEWAY_LABEL in sel.matchLabels;
  }

  // ---------------------------------------------------------------- what they add

  /** The peering's own policies in a namespace. */
  predicate IsOwn(peering: string, ns: string, r: Ref) {
    r == Ref(ns, AccessPolicyName(peering)) || r == Ref(ns, ShadowPolicyName(peering))
  }

  ghost predicate AllowsBy(o: Objects, me: Ref, r: Ref, members: seq<Member>, d: Direction, packet: Packet)
    requires me in o.peers
  {
    Applies(o, me, r) && exists f :: Covers(f, packet) && Allows(d, o.policies[r], members, me.name, f)
  }

  ghost predicate OthersAllow(o: Objects, me: Ref, peering: string, members: seq<Member>, d: Direction, packet: Packet)
    requires me in o.peers
  {
    exists r :: !IsOwn(peering, me.ns, r) && AllowsBy(o, me, r, members, d, packet)
  }

  /** The two policies are stored in a namespace for a network of it. */
  predicate HoldsOwn(o: Objects, peering: string, ns: string, net: string) {
    && Ref(ns, AccessPolicyName(peering)) in o.policies && Ref(ns, ShadowPolicyName(peering)) in o.policies
    && o.policies[Ref(ns, AccessPolicyName(peering))] == AccessPolicy(net)
    && o.policies[Ref(ns, ShadowPolicyName(peering))] == ShadowPolicy(net)
  }

  lemma AccessAllows(o: Objects, me: Ref, peering: string, net: string, members: seq<Member>, d: Direction,
                     packet: Packet)
    requires me in o.peers && o.peers[me].specNet == Some(net) && Ref(me.ns, net) in o.networks
    requires HoldsOwn(o, peering, me.ns, net)
    ensures AllowsBy(o, me, Ref(me.ns, AccessPolicyName(peering)), members, d, packet) <==>
      FromLabelled("alattice.io/gateway", members, me.name, packet)
  {
    var r := Ref(me.ns, AccessPolicyName(peering));
    AppliesTo(net, o.peers[me].labels);
    assert Applies(o, me, r) by { hide Matches, AccessPolicyName; }
    assert o.policies[r].action == "" && o.policies[r] == AccessPolicy(net);
    hide Applies, Matches, AccessPolicy, LabelledAt;
    SpeakersCover(o.policies[r], "alattice.io/gateway", members, me.name, d, packet) by {
      forall f ensures Speaks(d, o.policies[r], members, me.name, f) <==>
        f.port == 0 && f.protocol == "" && LabelledAt("alattice.io/gateway", members, me.name, f.peer)
      {
        AccessSpeaks(d, net, members, me.name, f);
      }
    }
  }

  lemma ShadowAllows(o: Objects, me: Ref, peering: string, net: string, members: seq<Member>, d: Direction,
                     packet: Packet)
    requires me in o.peers && o.peers[me].specNet == Some(net) && Ref(me.ns, net) in o.networks
    requires HoldsOwn(o, peering, me.ns, net)
    ensures AllowsBy(o, me, Ref(me.ns, ShadowPolicyName(peering)), members, d, packet) <==>
      && d.Outbound? && HasLabel(o.peers[me].labels, "alattice.io/gateway")
      && FromLabelled("alattice.io/shadow", members, me.name, packet)
  {
    var r := Ref(me.ns, ShadowPolicyName(peering));
    AppliesTo(net, o.peers[me].labels);
    assert Applies(o, me, r) <==> HasLabel(o.peers[me].labels, "alattice.io/gateway") by {
      hide Matches, ShadowPolicyName, HasLabel;
    }
    assert o.policies[r].action == "" && o.policies[r] == ShadowPolicy(net);
    hide Applies, Matches, ShadowPolicy, LabelledAt, HasLabel;
    forall f { ShadowSpeaks(d, net, members, me.name, f); }
    if d.Outbound? {
      SpeakersCover(o.policies[r], "alattice.io/shadow", members, me.name, d, packet);
    }
  }

  lemma SpeakersCover(p: LatticePolicy, mark: string, members: seq<Member>, current: string, d: Direction,
                      packet: Packet)
    requires p.action == ""
    requires forall f :: Speaks(d, p, members, current, f) <==>
      f.port == 0 && f.protocol == "" && LabelledAt(mark, members, current, f.peer)
    ensures (exists f :: Covers(f, packet) && Allows(d, p, members, current, f)) <==>
      FromLabelled(mark, members, current, packet)
  {
    hide Speaks, LabelledAt, IsAllow;
    if FromLabelled(mark, members, current, packet) {
      var a :| a in packet.covered && LabelledAt(mark, members, current, a);
      var f := Flow(a, 0, "");
      assert Speaks(d, p, members, current, f) && Covers(f, packet) && Allows(d, p, members, current, f);
    }
  }

  /** For every peer of a network of a peering, every packet and both directions: what the policies allow is what
      the other policies allow, the traffic of the gateways, and for a gateway outbound that of the shadows. */
  lemma PeeringAllowsExactly(o: Objects, me: Ref, peering: string, net: string, members: seq<Member>, d: Direction,
                             packet: Packet)
    requires me in o.peers && o.peers[me].specNet == Some(net) && Ref(me.ns, net) in o.networks
    requires HoldsOwn(o, peering, me.ns, net)
    ensures PolicyAllows(o, me, members, d, packet) <==>
      || OthersAllow(o, me, peering, members, d, packet)
      || FromLabelled("alattice.io/gateway", members, me.name, packet)
      || (&& d.Outbound? && HasLabel(o.peers[me].labels, "alattice.io/gateway")
          && FromLabelled("alattice.io/shadow", members, me.name, packet))
  {
    AccessAllows(o, me, peering, net, members, d, packet);
    ShadowAllows(o, me, peering, net, members, d, packet);
    SomeAllows(o, me, members, d, packet);
    hide HoldsOwn, FromLabelled, PolicyAllows, AllowsBy, HasLabel, AccessPolicyName, ShadowPolicyName;
  }

  lemma SomeAllows(o: Objects, me: Ref, members: seq<Member>, d: Direction, packet: Packet)
    requires me in o.peers
    ensures PolicyAllows(o, me, members, d, packet) <==> exists r :: AllowsBy(o, me, r, members, d, packet)
  {
    hide Matches, Covers, Allows;
    if PolicyAllows(o, me, members, d, packet) {
      var r, f :| Applies(o, me, r) && Covers(f, packet) && Allows(d, o.policies[r], members, me.name, f);
      assert AllowsBy(o, me, r, members, d, packet);
    }
    if r :| AllowsBy(o, me, r, members, d, packet) {
      var f :| Covers(f, packet) && Allows(d, o.policies[r], members, me.name, f);
    }
  }

  /** They add nothing for the peers of another network. */
  lemma NothingForOthers(o: Objects, me: Ref, peering: string, net: string, members: seq<Member>, d: Direction,
                         packet: Packet)
    requires me in o.peers && o.peers[me].specNet.Some? && o.peers[me].specNet != Some(net)
    requires HoldsOwn(o, peering, me.ns, net)
    ensures PolicyAllows(o, me, members, d, packet) <==> OthersAllow(o, me, peering, members, d, packet)
  {
    SomeAllows(o, me, members, d, packet);
    hide PolicyAllows, Covers, Allows, Matches, AccessPolicyName, ShadowPolicyName;
    forall r | IsOwn(peering, me.ns, r) ensures !AllowsBy(o, me, r, members, d, packet) {
      assert o.policies[r].network == net;
    }
    hide AllowsBy, HoldsOwn;
  }

  /** Within one namespace the policies of the second network take the place of those of the first, so the peering
      lets nothing through for the first network's peers. */
  lemma SameNamespaceOneNetwork(digest: Digest, o: Objects, p: NetworkPeering, gwA: Ref, gwB: Ref, me: Ref,
                                members: seq<Member>, d: Direction, packet: Packet)
    requires Linked(digest, o, p, gwA, gwB) && p.nsA == p.nsB == me.ns && p.netA != p.netB
    requires var after := Created(digest, o, p, gwA, gwB); me in after.peers && after.peers[me].specNet == Some(p.netA)
    ensures var after := Created(digest, o, p, gwA, gwB);
      PolicyAllows(after, me, members, d, packet) <==> OthersAllow(after, me, p.name, members, d, packet)
  {
    var after := Created(digest, o, p, gwA, gwB);
    assert HoldsOwn(after, p.name, me.ns, p.netB) by { LastPoliciesStay(o.policies, p); }
    hide Created, Linked, HoldsOwn, PolicyAllows, OthersAllow;
    NothingForOthers(after, me, p.name, p.netB, members, d, packet);
  }

  lemma LastPoliciesStay(policies: map<Ref, LatticePolicy>, p: NetworkPeering)
    ensures var after := CreatedPolicies(policies, p);
      && Ref(p.nsB, AccessPolicyName(p.name)) in after && Ref(p.nsB, ShadowPolicyName(p.name)) in after
      && after[Ref(p.nsB, AccessPolicyName(p.name))] == AccessPolicy(p.netB)
      && after[Ref(p.nsB, ShadowPolicyName(p.name))] == ShadowPolicy(p.netB)
  {
    PolicyKindsDiffer(p.name, p.name);
    hide AccessPolicyName, ShadowPolicyName, AccessPolicy, ShadowPolicy;
  }

  // ---------------------------------------------------------------- an established peering

  lemma HoldsBoth(digest: Digest, o: Objects, p: NetworkPeering, gwA: Ref, gwB: Ref)
    requires Linked(digest, o, p, gwA, gwB) && p.nsA != p.nsB
    ensures HoldsOwn(Created(digest, o, p, gwA, gwB), p.name, p.nsA, p.netA)
    ensures HoldsOwn(Created(digest, o, p, gwA, gwB), p.name, p.nsB, p.netB)
  {
    PolicyKindsDiffer(p.name, p.name);
    hide CreatedPeers, AccessPolicyName, ShadowPolicyName, AccessPolicy, ShadowPolicy, HasLabel, NetworkLabelKey;
  }

  /** The packet's remote address is that of a stored peer. */
  predicate IsFrom(o: Objects, r: Ref, packet: Packet) {
    && r in o.peers && o.peers[r].address.Some?
    && CleanIP(o.peers[r].address.value) != "" && CleanIP(o.peers[r].address.value) in packet.covered
  }

  lemma MemberIsFrom(digest: Digest, o: Objects, me: Ref, net: string, s: Snapshot, r: Ref, mark: string,
                     packet: Packet)
    requires IsSnapshot(digest, o, me, s) && o.peers[me].specNet == Some(net) && Ref(me.ns, net) in o.networks
    requires IsFrom(o, r, packet) && r.ns == me.ns && r != me
    requires HasLabel(o.peers[r].labels, NetworkLabelKey(digest, net)) && HasLabel(o.peers[r].labels, mark)
    ensures FromLabelled(mark, s.members, me.name, packet)
  {
    hide IsSnapshot, HasLabel, NetworkLabelKey, RoutesOf, FixedParts;
    var m := MemberFor(digest, o, me, net, s, r);
    var a := CleanIP(o.peers[r].address.value);
    assert IsAt(m, s.members, me.name, a);
    assert LabelledAt(mark, s.members, me.name, a);
  }

  /** One side: the peers of the network and their gateway talk freely, and the gateway reaches the shadow. */
  lemma SideAllows(digest: Digest, o: Objects, peering: string, net: string, gw: Ref, remote: string, me: Ref,
                   s: Snapshot, d: Direction, packet: Packet)
    requires SideReady(digest, o, peering, me.ns, net, gw, remote) && HoldsOwn(o, peering, me.ns, net)
    requires IsSnapshot(digest, o, me, s) && o.peers[me].specNet == Some(net) && gw.name != ShadowName(peering)
    ensures me in o.peers
    ensures me != gw && IsFrom(o, gw, packet) ==> PolicyAllows(o, me, s.members, d, packet)
    ensures me == gw && d.Outbound? && IsFrom(o, Ref(me.ns, ShadowName(peering)), packet) ==>
      PolicyAllows(o, me, s.members, d, packet)
  {
    InStore(digest, o, me, s);
    hide IsSnapshot, HoldsOwn, HasLabel, NetworkLabelKey, RouteAnnotationKey, HasPolicy, AccessPolicy, ShadowPolicy;
    hide PolicyAllows, OthersAllow, FromLabelled, ShadowName, IsFrom;
    PeeringAllowsExactly(o, me, peering, net, s.members, d, packet);
    var shadow := Ref(me.ns, ShadowName(peering));
    if me != gw && IsFrom(o, gw, packet) {
      MemberIsFrom(digest, o, me, net, s, gw, "alattice.io/gateway", packet);
    }
    if me == gw && IsFrom(o, shadow, packet) {
      MemberIsFrom(digest, o, me, net, s, shadow, "alattice.io/shadow", packet);
    }
  }

  predicate LivesIn(o: Objects, me: Ref, ns: string, net: string) {
    me in o.peers && me.ns == ns && o.peers[me].specNet == Some(net)
  }

  /** Between a peer and its gateway in either direction, or from the gateway to the one of the other side. */
  predicate IsWithin(o: Objects, home: Ref, away: Ref, me: Ref, d: Direction, packet: Packet) {
    if me == home then d.Outbound? && IsFrom(o, away, packet) else IsFrom(o, home, packet)
  }

  /** One side, at the chain. */
  lemma SideAccepts(digest: Digest, o: Objects, peering: string, net: string, gw: Ref, remote: string, me: Ref,
                    s: Snapshot, nodes: seq<Member>, compiled: seq<Compiled>, d: Direction, chain: string,
                    order: seq<Flow>, packet: Packet)
    requires SideReady(digest, o, peering, me.ns, net, gw, remote) && HoldsOwn(o, peering, me.ns, net)
    requires gw.name != ShadowName(peering) && LivesIn(o, me, me.ns, net)
    requires IsSnapshot(digest, o, me, s) && NodesOf(o, me.ns, nodes)
    requires AllCompiled(digest, nodes, s.policies, compiled)
    requires !packet.established && Enumerates(order, Decided(d, compiled, s.members, me.name).Keys)
    requires PlainActions(o) && NoConflict(Decided(d, compiled, s.members, me.name), packet)
    requires IsWithin(o, gw, Ref(me.ns, ShadowName(peering)), me, d, packet)
    ensures Accepted(ChainOf(chain, order, Decided(d, compiled, s.members, me.name)), packet)
  {
    hide SideReady, HoldsOwn, IsSnapshot, NodesOf, AllCompiled, PlainActions, NoConflict, Decided;
    hide PolicyAllows, Accepted, ChainOf, IsFrom, ShadowName, Enumerates;
    SideAllows(digest, o, peering, net, gw, remote, me, s, d, packet);
    PacketIffPolicy(digest, o, me, s, nodes, compiled, d, chain, order, packet);
  }

  /** A reconcile between two namespaces, with gateways that have addresses and are no shadows of the peering. */
  ghost predicate Establishes(digest: Digest, o: Objects, p: NetworkPeering, gwA: Ref, gwB: Ref, after: Objects) {
    && Linked(digest, o, p, gwA, gwB) && p.nsA != p.nsB && !IsShadow(p, gwA) && !IsShadow(p, gwB)
    && o.peers[gwA].address.Some? && o.peers[gwB].address.Some? && after == Created(digest, o, p, gwA, gwB)
  }

  lemma SidesReady(digest: Digest, o: Objects, p: NetworkPeering, gwA: Ref, gwB: Ref, after: Objects)
    returns (cidrA: string, cidrB: string)
    requires Establishes(digest, o, p, gwA, gwB, after)
    ensures gwA.name != ShadowName(p.name) && SideReady(digest, after, p.name, p.nsA, p.netA, gwA, cidrB)
    ensures gwB.name != ShadowName(p.name) && SideReady(digest, after, p.name, p.nsB, p.netB, gwB, cidrA)
    ensures HoldsOwn(after, p.name, p.nsA, p.netA) && HoldsOwn(after, p.name, p.nsB, p.netB)
    ensures SameAddress(o, gwA, after, gwA) && SameAddress(o, gwB, after, gwB)
    ensures SameAddress(o, gwB, after, Ref(p.nsA, ShadowName(p.name)))
    ensures SameAddress(o, gwA, after, Ref(p.nsB, ShadowName(p.name)))
  {
    hide Created, SideReady, HoldsOwn, SameAddress, HasLabel, NetworkLabelKey, ShadowName;
    BothSidesReady(digest, o, p, gwA, gwB);
    HoldsBoth(digest, o, p, gwA, gwB);
    Addresses(digest, o, p, gwA, gwB);
    cidrA, cidrB := CidrA(o, p), CidrB(o, p);
  }

  /** After a peering between two namespaces is established, for every peer of either network: packets from and to
      its gateway get through its chain in both directions, and from a gateway to the other side's gateway, whose
      address the shadow has; with plain actions and where the covering decisions do not disagree. */
  lemma PeeringLetsThrough(digest: Digest, o: Objects, after: Objects, p: NetworkPeering, gwA: Ref, gwB: Ref, me: Ref,
                           s: Snapshot, nodes: seq<Member>, compiled: seq<Compiled>, d: Direction, chain: string,
                           order: seq<Flow>, packet: Packet)
    requires Establishes(digest, o, p, gwA, gwB, after) && IsSnapshot(digest, after, me, s)
    requires NodesOf(after, me.ns, nodes) && AllCompiled(digest, nodes, s.policies, compiled)
    requires !packet.established && Enumerates(order, Decided(d, compiled, s.members, me.name).Keys)
    requires PlainActions(after) && NoConflict(Decided(d, compiled, s.members, me.name), packet)
    ensures LivesIn(after, me, p.nsA, p.netA) && IsWithin(o, gwA, gwB, me, d, packet) ==>
      Accepted(ChainOf(chain, order, Decided(d, compiled, s.members, me.name)), packet)
    ensures LivesIn(after, me, p.nsB, p.netB) && IsWithin(o, gwB, gwA, me, d, packet) ==>
      Accepted(ChainOf(chain, order, Decided(d, compiled, s.members, me.name)), packet)
  {
    hide Establishes, SideReady, HoldsOwn, IsSnapshot, NodesOf, AllCompiled, PlainActions, NoConflict, Decided;
    hide Accepted, ChainOf, IsFrom, ShadowName, Enumerates, SameAddress;
    var cidrA, cidrB := SidesReady(digest, o, p, gwA, gwB, after);
    if LivesIn(after, me, p.nsA, p.netA) && IsWithin(o, gwA, gwB, me, d, packet) {
      FromSame(o, after, gwA, gwA, packet);
      FromSame(o, after, gwB, Ref(p.nsA, ShadowName(p.name)), packet);
      SideAccepts(digest, after, p.name, p.netA, gwA, cidrB, me, s, nodes, compiled, d, chain, order, packet);
    }
    if LivesIn(after, me, p.nsB, p.netB) && IsWithin(o, gwB, gwA, me, d, packet) {
      FromSame(o, after, gwB, gwB, packet);
      FromSame(o, after, gwA, Ref(p.nsB, ShadowName(p.name)), packet);
      SideAccepts(digest, after, p.name, p.netB, gwB, cidrA, me, s, nodes, compiled, d, chain, order, packet);
    }
  }

  predicate SameAddress(o: Objects, a: Ref, after: Objects, b: Ref) {
    a in o.peers && b in after.peers && after.peers[b].address == o.peers[a].address
  }

  lemma FromSame(o: Objects, after: Objects, a: Ref, b: Ref, packet: Packet)
    requires SameAddress(o, a, after, b)
    ensures IsFrom(o, a, packet) <==> IsFrom(after, b, packet)
  {
  }

  /** The gateways keep their addresses, and each shadow has the other gateway's. */
  lemma Addresses(digest: Digest, o: Objects, p: NetworkPeering, gwA: Ref, gwB: Ref)
    requires Linked(digest, o, p, gwA, gwB) && p.nsA != p.nsB && !IsShadow(p, gwA) && !IsShadow(p, gwB)
    requires o.peers[gwA].address.Some? && o.peers[gwB].address.Some?
    ensures var after := Created(digest, o, p, gwA, gwB);
      && SameAddress(o, gwA, after, gwA) && SameAddress(o, gwB, after, gwB)
      && SameAddress(o, gwB, after, Ref(p.nsA, ShadowName(p.name)))
      && SameAddress(o, gwA, after, Ref(p.nsB, ShadowName(p.name)))
  {
    hide CreatedPeers, CreatedPolicies, HasLabel, NetworkLabelKey, RouteAnnotationKey, ShadowName, IsShadow;
    RouteIsSet(digest, o.peers, p, gwA, gwB, CidrA(o, p), CidrB(o, p), gwA);
    RouteIsSet(digest, o.peers, p, gwA, gwB, CidrA(o, p), CidrB(o, p), gwB);
    ShadowIsSet(digest, o.peers, p, gwA, gwB, CidrA(o, p), CidrB(o, p));
  }
}
