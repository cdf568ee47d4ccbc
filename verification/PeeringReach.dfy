/** After a peering is established, the configuration generated for the peers of either network routes
    the other network's CIDR through the local gateway, and the gateway's through the shadow. */
module PeeringReach {
  import opened Prelude
  import opened KeyNames
  import opened Policy
  import opened AllowedIPs
  import opened Store
  import opened Peering
  import opened PeeringUndo
  import opened PeeringNames

  /** One side of an established peering. */
  ghost predicate SideReady(digest: Digest, o: Objects, peering: string, ns: string, net: string, gw: Ref,
                            remote: string) {
    var shadow := Ref(ns, ShadowName(peering));
    && Ref(ns, net) in o.networks
    && IsGateway(digest, o.peers, ns, net, gw) && o.peers[gw].address.Some?
    && RouteAnnotationKey(digest, peering) in o.peers[gw].annotations
    && o.peers[gw].annotations[RouteAnnotationKey(digest, peering)] == remote
    && shadow in o.peers && o.peers[shadow].address.Some?
    && HasLabel(o.peers[shadow].labels, SHADOW_LABEL) && HasLabel(o.peers[shadow].labels, NetworkLabelKey(digest, net))
    && SHADOW_ALLOWED_IPS in o.peers[shadow].annotations && o.peers[shadow].annotations[SHADOW_ALLOWED_IPS] == remote
    && HasPolicy(o, ns, AccessPolicy(net)) && HasPolicy(o, ns, ShadowPolicy(net))
  }

  ghost predicate HasPolicy(o: Objects, ns: string, policy: LatticePolicy) {
    exists r :: r in o.policies && r.ns == ns && o.policies[r] == policy
  }

  /** A tunnel to the named peer whose configuration has the CIDR as an allowed_ip line of its own. */
  ghost predicate Tunnels(s: Snapshot, name: string, cidr: string) {
    exists m :: m in s.members && m.name == name && IsComputedPeer(s.current, s.policies, m)
      && LINE_KEY + cidr in Lines(SplitComma(m.allowedIPs))
  }

  // ---------------------------------------------------------------- allowed addresses

  lemma RouteGetsLine(name: string, n: Node, m: Member, key: string)
    requires Configured(name, n, m) && IsRoute(n, key) && PlainCidr(n.annotations[key])
    ensures LINE_KEY + n.annotations[key] in Lines(SplitComma(m.allowedIPs))
  {
    hide HasPrefix, FixedParts, JoinComma, Lines, SplitComma, PlainCidr;
    var routes :| RoutesOf(n, routes) && m.allowedIPs == JoinComma(FixedParts(n) + routes);
    assert n.annotations[key] in routes;
    PartGetsLine(FixedParts(n) + routes, n.annotations[key]);
  }

  lemma ShadowGetsLine(name: string, n: Node, m: Member)
    requires Configured(name, n, m) && SHADOW_ALLOWED_IPS in n.annotations
    requires PlainCidr(n.annotations[SHADOW_ALLOWED_IPS])
    ensures LINE_KEY + n.annotations[SHADOW_ALLOWED_IPS] in Lines(SplitComma(m.allowedIPs))
  {
    var c := n.annotations[SHADOW_ALLOWED_IPS];
    assert c in FixedParts(n);
    hide FixedParts, JoinComma, Lines, SplitComma, PlainCidr, RoutesOf;
    var routes :| RoutesOf(n, routes) && m.allowedIPs == JoinComma(FixedParts(n) + routes);
    PartGetsLine(FixedParts(n) + routes, c);
  }

  // ---------------------------------------------------------------- what the two policies connect

  lemma AccessReachesGateway(current: Labels, other: Labels, net: string)
    requires HasLabel(other, GATEWAY_LABEL)
    ensures Concerns(AccessPolicy(net), current, other) && Matches(AccessPolicy(net).applies, current)
  {
    var s := TO_GATEWAY[0];
    assert s in TO_GATEWAY && s.selections[0] in s.selections;
    assert Selects(s.selections[0], other);
  }

  lemma ShadowReachesShadow(current: Labels, other: Labels, net: string)
    requires HasLabel(current, GATEWAY_LABEL) && HasLabel(other, SHADOW_LABEL)
    ensures Concerns(ShadowPolicy(net), current, other) && Matches(ShadowPolicy(net).applies, current)
  {
    var s := TO_SHADOW[0];
    assert s in TO_SHADOW && s.selections[0] in s.selections;
    assert Selects(s.selections[0], other);
  }

  /** The member a stored peer of the network with an address becomes. */
  lemma MemberFor(digest: Digest, o: Objects, me: Ref, net: string, s: Snapshot, r: Ref) returns (m: Member)
    requires IsSnapshot(digest, o, me, s) && o.peers[me].specNet == Some(net) && Ref(me.ns, net) in o.networks
    requires r in o.peers && r.ns == me.ns && o.peers[r].address.Some?
    requires HasLabel(o.peers[r].labels, NetworkLabelKey(digest, net))
    ensures m in s.members && m.name == r.name && m.labels == o.peers[r].labels && Configured(r.name, o.peers[r], m)
  {
    hide HasLabel, NetworkLabelKey, DistinctNames, PoliciesOf, RoutesOf, FixedParts, JoinComma;
    m :| m in s.members && m.name == r.name;
    assert Ref(me.ns, m.name) == r;
  }

  lemma PolicyIn(digest: Digest, o: Objects, me: Ref, net: string, s: Snapshot, policy: LatticePolicy)
    requires IsSnapshot(digest, o, me, s) && o.peers[me].specNet == Some(net) && Ref(me.ns, net) in o.networks
    requires HasPolicy(o, me.ns, policy) && policy.network == net && Matches(policy.applies, s.current.labels)
    ensures policy in s.policies
  {
    hide MembersOf, Matches;
  }

  // ---------------------------------------------------------------- one side

  lemma SideGateway(digest: Digest, o: Objects, peering: string, ns: string, net: string, gw: Ref, remote: string)
    requires SideReady(digest, o, peering, ns, net, gw, remote) && PlainCidr(remote)
    ensures Ref(ns, net) in o.networks && HasPolicy(o, ns, AccessPolicy(net))
    ensures gw in o.peers && gw.ns == ns && o.peers[gw].address.Some?
    ensures HasLabel(o.peers[gw].labels, GATEWAY_LABEL) && HasLabel(o.peers[gw].labels, NetworkLabelKey(digest, net))
    ensures IsRoute(o.peers[gw], RouteAnnotationKey(digest, peering))
    ensures o.peers[gw].annotations[RouteAnnotationKey(digest, peering)] == remote
  {
    hide HasLabel, NetworkLabelKey, RouteAnnotationKey, HasPolicy, ShadowName, PlainCidr, AccessPolicy, ShadowPolicy;
    hide HasPrefix;
    PlainNotEmpty(remote);
  }

  /** Every other peer of the network tunnels to the gateway, with the remote CIDR among its addresses. */
  lemma PeersRouteRemote(digest: Digest, o: Objects, peering: string, ns: string, net: string, gw: Ref,
                         remote: string, me: Ref, s: Snapshot)
    requires SideReady(digest, o, peering, ns, net, gw, remote) && PlainCidr(remote)
    requires IsSnapshot(digest, o, me, s) && me.ns == ns && o.peers[me].specNet == Some(net) && me != gw
    ensures Tunnels(s, gw.name, remote)
  {
    hide SideReady, IsSnapshot, HasLabel, NetworkLabelKey, RouteAnnotationKey, HasPolicy, Configured, PlainCidr;
    hide Lines, SplitComma, Concerns, AccessPolicy, ShadowPolicy, JoinComma, IsRoute, Matches;
    SnapshotName(digest, o, me, s);
    SideGateway(digest, o, peering, ns, net, gw, remote);
    var m := MemberFor(digest, o, me, net, s, gw);
    AccessReachesGateway(s.current.labels, m.labels, net);
    PolicyIn(digest, o, me, net, s, AccessPolicy(net)) by { AccessNetwork(net); }
    RouteGetsLine(gw.name, o.peers[gw], m, RouteAnnotationKey(digest, peering));
  }

  lemma AccessNetwork(net: string)
    ensures AccessPolicy(net).network == net && ShadowPolicy(net).network == net
  {
  }

  lemma PlainNotEmpty(s: string)
    requires PlainCidr(s)
    ensures s != ""
  {
  }

  /** The gateway tunnels to the shadow of the remote gateway, with the remote CIDR among its addresses. */
  lemma GatewayRoutesRemote(digest: Digest, o: Objects, peering: string, ns: string, net: string, gw: Ref,
                            remote: string, s: Snapshot)
    requires SideReady(digest, o, peering, ns, net, gw, remote) && PlainCidr(remote)
    requires IsSnapshot(digest, o, gw, s) && o.peers[gw].specNet == Some(net) && gw.name != ShadowName(peering)
    ensures Tunnels(s, ShadowName(peering), remote)
  {
    hide IsSnapshot, HasLabel, NetworkLabelKey, RouteAnnotationKey, HasPolicy, Configured, ShadowName, PlainCidr;
    hide Lines, SplitComma, Concerns, AccessPolicy, ShadowPolicy, JoinComma, HasPrefix, Matches;
    SnapshotLabels(digest, o, gw, s);
    var shadow := Ref(ns, ShadowName(peering));
    var m := MemberFor(digest, o, gw, net, s, shadow);
    ShadowReachesShadow(s.current.labels, m.labels, net);
    PolicyIn(digest, o, gw, net, s, ShadowPolicy(net)) by { AccessNetwork(net); }
    ShadowGetsLine(shadow.name, o.peers[shadow], m);
  }

  lemma SnapshotLabels(digest: Digest, o: Objects, me: Ref, s: Snapshot)
    requires IsSnapshot(digest, o, me, s)
    ensures s.current.name == me.name && s.current.labels == o.peers[me].labels
  {
  }

  // ---------------------------------------------------------------- both sides are ready

  lemma ShadowIsSet(digest: Digest, peers: map<Ref, Node>, p: NetworkPeering, gwA: Ref, gwB: Ref, cidrA: string,
                    cidrB: string)
    requires gwA in peers && gwB in peers && p.nsA != p.nsB && peers[gwA].address.Some? && peers[gwB].address.Some?
    ensures var after, a, b := CreatedPeers(digest, peers, p, gwA, gwB, cidrA, cidrB),
                      Ref(p.nsA, ShadowName(p.name)), Ref(p.nsB, ShadowName(p.name));
      && a in after && IsShadowOf(digest, after[a], peers[gwB], p.netA, cidrB)
      && b in after && IsShadowOf(digest, after[b], peers[gwA], p.netB, cidrA)
  {
    hide RoutedPeers, ShadowNode, IsShadowOf, ShadowName;
    var routed := RoutedPeers(digest, peers, p, gwA, gwB, cidrA, cidrB);
    var a, b := Ref(p.nsA, ShadowName(p.name)), Ref(p.nsB, ShadowName(p.name));
    ShadowNodeIsShadow(digest, if a in routed then Some(routed[a]) else None, peers[gwB], p.netA, cidrB);
    ShadowNodeIsShadow(digest, if b in routed then Some(routed[b]) else None, peers[gwA], p.netB, cidrA);
  }

  lemma ShadowNodeIsShadow(digest: Digest, existing: Option<Node>, source: Node, net: string, cidr: string)
    requires source.address.Some?
    ensures IsShadowOf(digest, ShadowNode(digest, existing, source, net, cidr), source, net, cidr)
  {
    hide NetworkLabelKey, HasLabel;
    TwoLabels(SHADOW_LABEL, NetworkLabelKey(digest, net));
  }

  lemma TwoLabels(a: string, b: string)
    ensures HasLabel(map[a := "true", b := "true"], a) && HasLabel(map[a := "true", b := "true"], b)
    ensures forall c :: HasLabel(map[a := "true", b := "true"], c) ==> c == a || c == b
  {
  }

  ghost predicate IsShadowOf(digest: Digest, n: Node, source: Node, net: string, cidr: string) {
    && HasLabel(n.labels, SHADOW_LABEL) && HasLabel(n.labels, NetworkLabelKey(digest, net))
    && n.address == source.address
    && n.publicKey == source.publicKey && n.peerId == source.peerId && n.appId == source.appId
    && SHADOW_ALLOWED_IPS in n.annotations && n.annotations[SHADOW_ALLOWED_IPS] == cidr
  }

  lemma PoliciesAreSet(o: Objects, p: NetworkPeering)
    requires p.nsA != p.nsB
    ensures var after := o.(policies := CreatedPolicies(o.policies, p));
      && HasPolicy(after, p.nsA, AccessPolicy(p.netA)) && HasPolicy(after, p.nsA, ShadowPolicy(p.netA))
      && HasPolicy(after, p.nsB, AccessPolicy(p.netB)) && HasPolicy(after, p.nsB, ShadowPolicy(p.netB))
  {
    var after := o.(policies := CreatedPolicies(o.policies, p));
    PolicyKindsDiffer(p.name, p.name);
    hide AccessPolicyName, ShadowPolicyName, AccessPolicy, ShadowPolicy;
    assert after.policies[Ref(p.nsA, AccessPolicyName(p.name))] == AccessPolicy(p.netA);
    assert after.policies[Ref(p.nsA, ShadowPolicyName(p.name))] == ShadowPolicy(p.netA);
    assert after.policies[Ref(p.nsB, AccessPolicyName(p.name))] == AccessPolicy(p.netB);
    assert after.policies[Ref(p.nsB, ShadowPolicyName(p.name))] == ShadowPolicy(p.netB);
  }

  lemma BothSidesReady(digest: Digest, o: Objects, p: NetworkPeering, gwA: Ref, gwB: Ref)
    requires Linked(digest, o, p, gwA, gwB) && p.nsA != p.nsB && !IsShadow(p, gwA) && !IsShadow(p, gwB)
    requires o.peers[gwA].address.Some? && o.peers[gwB].address.Some?
    ensures SideReady(digest, Created(digest, o, p, gwA, gwB), p.name, p.nsA, p.netA, gwA, CidrB(o, p))
    ensures SideReady(digest, Created(digest, o, p, gwA, gwB), p.name, p.nsB, p.netB, gwB, CidrA(o, p))
  {
    hide CreatedPeers, CreatedPolicies, HasLabel, NetworkLabelKey, RouteAnnotationKey, ShadowName, HasPolicy;
    hide AccessPolicy, ShadowPolicy, IsShadow;
    RouteIsSet(digest, o.peers, p, gwA, gwB, CidrA(o, p), CidrB(o, p), gwA);
    RouteIsSet(digest, o.peers, p, gwA, gwB, CidrA(o, p), CidrB(o, p), gwB);
    ShadowIsSet(digest, o.peers, p, gwA, gwB, CidrA(o, p), CidrB(o, p));
    PoliciesAreSet(o.(peers := CreatedPeers(digest, o.peers, p, gwA, gwB, CidrA(o, p), CidrB(o, p))), p);
  }

  /** Established between two namespaces: on either side every peer of the network reaches the other
      side's CIDR through the gateway's tunnel, and the gateway through the shadow's. */
  lemma PeeringRoutesBothWays(digest: Digest, o: Objects, p: NetworkPeering, gwA: Ref, gwB: Ref, me: Ref, s: Snapshot)
    requires Linked(digest, o, p, gwA, gwB) && p.nsA != p.nsB && !IsShadow(p, gwA) && !IsShadow(p, gwB)
    requires o.peers[gwA].address.Some? && o.peers[gwB].address.Some?
    requires PlainCidr(CidrA(o, p)) && PlainCidr(CidrB(o, p))
    requires IsSnapshot(digest, Created(digest, o, p, gwA, gwB), me, s)
    ensures me.ns == p.nsA && Created(digest, o, p, gwA, gwB).peers[me].specNet == Some(p.netA)
        ==> Tunnels(s, if me == gwA then ShadowName(p.name) else gwA.name, CidrB(o, p))
    ensures me.ns == p.nsB && Created(digest, o, p, gwA, gwB).peers[me].specNet == Some(p.netB)
        ==> Tunnels(s, if me == gwB then ShadowName(p.name) else gwB.name, CidrA(o, p))
  {
    BothSidesReady(digest, o, p, gwA, gwB);
    var after := Created(digest, o, p, gwA, gwB);
    assert gwA.ns == p.nsA && gwB.ns == p.nsB;
    assert gwA.name != ShadowName(p.name) && gwB.name != ShadowName(p.name);
    hide Created, SideReady, Linked, Tunnels, PlainCidr, IsShadow, ShadowName, IsSnapshot;
    if me.ns == p.nsA && after.peers[me].specNet == Some(p.netA) {
      if me == gwA {
        GatewayRoutesRemote(digest, after, p.name, p.nsA, p.netA, gwA, CidrB(o, p), s);
      } else {
        PeersRouteRemote(digest, after, p.name, p.nsA, p.netA, gwA, CidrB(o, p), me, s);
      }
    }
    if me.ns == p.nsB && after.peers[me].specNet == Some(p.netB) {
      if me == gwB {
        GatewayRoutesRemote(digest, after, p.name, p.nsB, p.netB, gwB, CidrA(o, p), s);
      } else {
        PeersRouteRemote(digest, after, p.name, p.nsB, p.netB, gwB, CidrA(o, p), me, s);
      }
    }
  }

  /** Within one namespace the two shadows share their name, and the second one stored belongs to the
      first network: the second network's gateway then gets no tunnel to it. */
  lemma SameNamespaceNoTunnel(digest: Digest, o: Objects, p: NetworkPeering, gwA: Ref, gwB: Ref, me: Ref, s: Snapshot)
    requires Linked(digest, o, p, gwA, gwB) && p.nsA == p.nsB
    requires NetworkLabelKey(digest, p.netA) != NetworkLabelKey(digest, p.netB)
    requires IsSnapshot(digest, Created(digest, o, p, gwA, gwB), me, s) && me.ns == p.nsB
    requires Created(digest, o, p, gwA, gwB).peers[me].specNet == Some(p.netB)
    ensures forall m | m in s.members :: m.name != ShadowName(p.name)
  {
    var after := Created(digest, o, p, gwA, gwB);
    var shadow := Ref(p.nsB, ShadowName(p.name));
    assert shadow in after.peers && !HasLabel(after.peers[shadow].labels, NetworkLabelKey(digest, p.netB)) by {
      LastShadow(digest, o.peers, p, gwA, gwB, CidrA(o, p), CidrB(o, p));
    }
    hide Created, HasLabel, NetworkLabelKey, ShadowName, PoliciesOf, DistinctNames, RoutesOf, FixedParts, JoinComma;
  }

  lemma LastShadow(digest: Digest, peers: map<Ref, Node>, p: NetworkPeering, gwA: Ref, gwB: Ref, cidrA: string,
                   cidrB: string)
    requires gwA in peers && gwB in peers && p.nsA == p.nsB
    requires NetworkLabelKey(digest, p.netA) != NetworkLabelKey(digest, p.netB)
    ensures var after, shadow := CreatedPeers(digest, peers, p, gwA, gwB, cidrA, cidrB), Ref(p.nsB, ShadowName(p.name));
      shadow in after && !HasLabel(after[shadow].labels, NetworkLabelKey(digest, p.netB))
  {
    assert NetworkLabelKey(digest, p.netB)[12] == NETWORK_LABEL_PREFIX[12];
    assert SHADOW_LABEL[12] != NETWORK_LABEL_PREFIX[12];
    hide RoutedPeers, NetworkLabelKey, ShadowName, HasLabel;
    TwoLabels(SHADOW_LABEL, NetworkLabelKey(digest, p.netA));
  }
}
