/** The stored objects that configuration is generated from, the view of them a peer's configuration
    uses, and the configured peer a stored peer turns into. */
module Store {
  import opened Prelude
  import opened KeyNames
  import opened Policy
  import opened RuleCompiler
  import opened AllowedIPs
  import opened Agreement

  datatype Ref = Ref(ns: string, name: string)

  datatype Node = Node(
    labels: Labels,
    annotations: map<string, string>,
    specNet: Option<string>,
    address: Option<string>,
    appId: string,
    publicKey: string,
    peerId: string)

  datatype Network = Network(ready: bool, cidr: string)

  datatype Objects = Objects(
    peers: map<Ref, Node>,
    policies: map<Ref, LatticePolicy>,
    networks: map<Ref, Network>)

  const GATEWAY_LABEL := "alattice.io/gateway"
  const SHADOW_LABEL := "alattice.io/shadow"
  const SHADOW_ALLOWED_IPS := "alattice.io/shadow-allowed-ips"

  predicate HasLabel(labels: Labels, key: string) { key in labels && labels[key] == "true" }

  // ---------------------------------------------------------------- a stored peer as configured peer

  predicate IsRoute(n: Node, k: string) {
    k in n.annotations && HasPrefix(k, ROUTE_ANNOTATION_PREFIX) && n.annotations[k] != ""
  }

  /** The extra routes of a gateway, in whatever order the annotations are walked. */
  ghost predicate RoutesOf(n: Node, routes: seq<string>) {
    forall v :: v in routes <==> exists k :: IsRoute(n, k) && n.annotations[k] == v
  }

  function FixedParts(n: Node): seq<string> {
    (if n.address.Some? then [n.address.value + "/32"] else [])
    + (if SHADOW_ALLOWED_IPS in n.annotations && n.annotations[SHADOW_ALLOWED_IPS] != ""
         then [n.annotations[SHADOW_ALLOWED_IPS]] else [])
  }

  ghost predicate Configured(name: string, n: Node, m: Member) {
    && m.name == name && m.labels == n.labels && m.address == n.address
    && exists routes :: RoutesOf(n, routes) && m.allowedIPs == JoinComma(FixedParts(n) + routes)
  }

  /** transferToPeer */
  method TransferToPeer(name: string, n: Node) returns (m: Member)
    ensures Configured(name, n, m)
  {
    var allowed := "";
    if n.address.Some? {
      allowed := n.address.value + "/32";
    }
    if SHADOW_ALLOWED_IPS in n.annotations && n.annotations[SHADOW_ALLOWED_IPS] != "" {
      allowed := AppendPart(allowed, n.annotations[SHADOW_ALLOWED_IPS]);
    }
    FixedJoined(n, allowed);
    var routes := ExtraRoutes(n);
    if |routes| > 0 {
      JoinConcat(FixedParts(n), routes);
      RoutesNotEmpty(n, routes);
      allowed := AppendPart(allowed, JoinComma(routes));
    } else {
      assert FixedParts(n) + routes == FixedParts(n);
    }
    m := Member(name, n.labels, n.address, allowed);
  }

  function AppendPart(allowed: string, part: string): string {
    if allowed != "" then allowed + "," + part else part
  }

  lemma FixedJoined(n: Node, allowed: string)
    requires var first := if n.address.Some? then n.address.value + "/32" else "";
      allowed == if SHADOW_ALLOWED_IPS in n.annotations && n.annotations[SHADOW_ALLOWED_IPS] != ""
                 then AppendPart(first, n.annotations[SHADOW_ALLOWED_IPS]) else first
    ensures allowed == JoinComma(FixedParts(n)) && (allowed == "" <==> FixedParts(n) == [])
  {
    if n.address.Some? && SHADOW_ALLOWED_IPS in n.annotations && n.annotations[SHADOW_ALLOWED_IPS] != "" {
      var a, b := n.address.value + "/32", n.annotations[SHADOW_ALLOWED_IPS];
      assert FixedParts(n) == [a, b] && [a, b][1..] == [b];
    }
  }

  lemma {:induction false} JoinConcat(xs: seq<string>, ys: seq<string>)
    requires ys != []
    ensures JoinComma(xs + ys) == if xs == [] then JoinComma(ys) else JoinComma(xs) + "," + JoinComma(ys)
  {
    if xs == [] {
      assert xs + ys == ys;
    } else {
      JoinConcat(xs[1..], ys);
      assert (xs + ys)[1..] == xs[1..] + ys;
    }
  }

  lemma RoutesNotEmpty(n: Node, routes: seq<string>)
    requires RoutesOf(n, routes) && routes != []
    ensures forall v | v in routes :: v != ""
  {
  }

  method ExtraRoutes(n: Node) returns (routes: seq<string>)
    ensures RoutesOf(n, routes)
  {
    hide HasPrefix;
    routes := [];
    var rest := n.annotations.Keys;
    while rest != {}
      invariant rest <= n.annotations.Keys
      invariant forall v :: v in routes <==> exists k :: IsRoute(n, k) && k !in rest && n.annotations[k] == v
      decreases |rest|
    {
      var k :| k in rest;
      ghost var before, left := routes, rest;
      if HasPrefix(k, ROUTE_ANNOTATION_PREFIX) && n.annotations[k] != "" {
        routes := routes + [n.annotations[k]];
      }
      rest := rest - {k};
      forall v ensures v in routes <==> exists j :: IsRoute(n, j) && j !in rest && n.annotations[j] == v {
        if v in before {
          var j :| IsRoute(n, j) && j !in left && n.annotations[j] == v;
          assert j !in rest;
        }
      }
    }
  }

  /** The parts of a configured peer's AllowedIPs. */
  predicate IsPart(n: Node, x: string) {
    || (n.address.Some? && x == n.address.value + "/32")
    || (x != "" && "alattice.io/shadow-allowed-ips" in n.annotations
        && n.annotations["alattice.io/shadow-allowed-ips"] == x)
    || (x != "" && exists k :: k in n.annotations && "alattice.io/peering-route-" <= k && n.annotations[k] == x)
  }

  /** With addresses and CIDRs that are plain, the allowed_ip lines of a configured peer are those of its own address
      with /32, its shadow CIDR and its peering routes, and no others. */
  lemma LinesExactly(name: string, n: Node, m: Member, line: string)
    requires Configured(name, n, m) && forall x | IsPart(n, x) :: PlainCidr(x)
    ensures line in Lines(SplitComma(m.allowedIPs)) <==> exists x :: IsPart(n, x) && line == "allowed_ip=" + x
  {
    var routes :| RoutesOf(n, routes) && m.allowedIPs == JoinComma(FixedParts(n) + routes);
    var parts := FixedParts(n) + routes;
    forall x ensures x in parts <==> IsPart(n, x) { PartIs(n, routes, x); }
    hide IsPart, FixedParts, RoutesOf;
    LineIffPiece(SplitComma(m.allowedIPs), line);
    if parts == [] {
      assert SplitComma(m.allowedIPs) == [""];
    } else {
      SplitIsInverse(parts);
      forall x | x in parts ensures TrimSpace(x) == x && !IsBlank(x) { PlainTrimmed(x); }
    }
    hide TrimSpace;
  }

  lemma PartIs(n: Node, routes: seq<string>, x: string)
    requires RoutesOf(n, routes)
    ensures x in FixedParts(n) + routes <==> IsPart(n, x)
  {
    assert x in FixedParts(n) + routes <==> x in FixedParts(n) || x in routes;
  }

  // ---------------------------------------------------------------- the view of one peer

  /** The peers of a network that have an address. */
  ghost predicate MembersOf(digest: Digest, o: Objects, ns: string, net: string, members: seq<Member>) {
    && DistinctNames(members)
    && (forall m | m in members ::
          && Ref(ns, m.name) in o.peers && o.peers[Ref(ns, m.name)].address.Some?
          && HasLabel(m.labels, NetworkLabelKey(digest, net)) && Configured(m.name, o.peers[Ref(ns, m.name)], m))
    && (forall r | r in o.peers && r.ns == ns && o.peers[r].address.Some? &&
        HasLabel(o.peers[r].labels, NetworkLabelKey(digest, net)) ::
          exists m :: m in members && m.name == r.name)
  }

  /** filterPoliciesForNode */
  ghost predicate PoliciesOf(o: Objects, ns: string, net: string, labels: Labels, policies: seq<LatticePolicy>) {
    forall p :: p in policies <==>
      exists r :: r in o.policies && r.ns == ns && o.policies[r] == p && p.network == net && Matches(p.applies, labels)
  }

  datatype Snapshot = Snapshot(current: Member, members: seq<Member>, policies: seq<LatticePolicy>)

  /** getPeerStateSnapshot and the start of generate, over one state of the store. */
  ghost predicate IsSnapshot(digest: Digest, o: Objects, me: Ref, s: Snapshot) {
    && me in o.peers && s.current.name == me.name && s.current.labels == o.peers[me].labels
    && match o.peers[me].specNet
       case None => s.members == [] && PoliciesOf(o, me.ns, "", s.current.labels, s.policies)
       case Some(net) =>
         if Ref(me.ns, net) in o.networks then
           MembersOf(digest, o, me.ns, net, s.members) && PoliciesOf(o, me.ns, net, s.current.labels, s.policies)
         else s.members == [] && s.policies == []
  }

  /** All peers of a namespace, as buildPolicy lists them. */
  ghost predicate NodesOf(o: Objects, ns: string, nodes: seq<Member>) {
    && DistinctNames(nodes)
    && (forall x | x in nodes :: Ref(ns, x.name) in o.peers && x.labels == o.peers[Ref(ns, x.name)].labels)
    && (forall r | r in o.peers && r.ns == ns :: exists x :: x in nodes && x.name == r.name)
  }

  lemma SnapshotConsistent(digest: Digest, o: Objects, me: Ref, s: Snapshot, nodes: seq<Member>)
    requires IsSnapshot(digest, o, me, s) && NodesOf(o, me.ns, nodes)
    ensures Consistent(digest, s.members, nodes, s.policies)
    ensures forall p | p in s.policies :: Matches(p.applies, s.current.labels)
  {
    hide Matches, NetworkLabelKey, DistinctNames, RoutesOf, FixedParts, JoinComma, HasPrefix;
    assert DistinctNames(s.members) by { NoMembersDistinct(); }
    forall m | m in s.members
      ensures m.address.Some? && exists x :: x in nodes && x.name == m.name && x.labels == m.labels
    {
      MemberListed(o, me.ns, nodes, m);
    }
  }

  lemma MemberListed(o: Objects, ns: string, nodes: seq<Member>, m: Member)
    requires NodesOf(o, ns, nodes) && Ref(ns, m.name) in o.peers && m.labels == o.peers[Ref(ns, m.name)].labels
    ensures exists x :: x in nodes && x.name == m.name && x.labels == m.labels
  {
    hide DistinctNames;
    var r := Ref(ns, m.name);
    assert r.name == m.name;
    var x :| x in nodes && x.name == r.name;
  }

  lemma NoMembersDistinct()
    ensures DistinctNames([])
  {
  }

  /** For every peer and every state of the store: the addresses a peer's compiled rules have from peers are
      those of its tunnel list, and those they have from blocks are the policies' own. */
  lemma ConfigurationAgrees(digest: Digest, o: Objects, me: Ref, s: Snapshot, nodes: seq<Member>,
                            compiled: seq<Compiled>, a: string)
    requires IsSnapshot(digest, o, me, s) && NodesOf(o, me.ns, nodes)
    requires AllCompiled(digest, nodes, s.policies, compiled)
    ensures InRules(FromAPeer, compiled, s.members, me.name, a) <==> TunnelAddress(s.current, s.members, s.policies, a)
    ensures InRules(FromABlock, compiled, s.members, me.name, a) <==> BlockAddress(s.policies, a)
    ensures IsDecided(compiled, s.members, me.name, a) <==>
      InRules(FromAPeer, compiled, s.members, me.name, a) || InRules(FromABlock, compiled, s.members, me.name, a)
  {
    SnapshotConsistent(digest, o, me, s, nodes);
    hide IsSnapshot, NodesOf, Consistent, AllCompiled, InRules, TunnelAddress, BlockAddress, Matches, IsDecided;
    assert s.current.name == me.name by { SnapshotName(digest, o, me, s); }
    TunnelsMatchRules(digest, s.current, s.members, nodes, s.policies, compiled, a);
  }

  lemma SnapshotName(digest: Digest, o: Objects, me: Ref, s: Snapshot)
    requires IsSnapshot(digest, o, me, s)
    ensures s.current.name == me.name
  {
  }
}
