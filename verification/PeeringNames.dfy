/** Peerings beside each other: their objects have different names, so one is created and deleted without touching
    the others. */
module PeeringNames {
  import opened Prelude
  import opened KeyNames
  import opened Policy
  import opened Store
  import opened Peering
  import opened PeeringUndo

  /** What a peering stores is named after it. */
  lemma NamesDiffer(a: string, b: string)
    requires a != b
    ensures ShadowName(a) != ShadowName(b)
    ensures AccessPolicyName(a) != AccessPolicyName(b) && ShadowPolicyName(a) != ShadowPolicyName(b)
  {
    Between("peering-shadow-", a, b, "");
    Between("lattice-peering-", a, b, "-gw-access");
    Between("lattice-peering-", a, b, "-shadow");
    assert ShadowName(a) == "peering-shadow-" + a + "" && ShadowName(b) == "peering-shadow-" + b + "";
  }

  lemma Between(prefix: string, a: string, b: string, suffix: string)
    ensures prefix + a + suffix == prefix + b + suffix ==> a == b
  {
    var x, y := prefix + a + suffix, prefix + b + suffix;
    if x == y {
      assert x[|prefix|..|x| - |suffix|] == a && y[|prefix|..|y| - |suffix|] == b;
    }
  }

  /** The two policies of peerings never share a name. */
  lemma PolicyKindsDiffer(a: string, b: string)
    ensures AccessPolicyName(a) != ShadowPolicyName(b)
  {
    var x, y := AccessPolicyName(a), ShadowPolicyName(b);
    assert x[|x| - 1] == 's' && y[|y| - 1] == 'w';
  }

  /** A policy of the peering q. */
  predicate IsPolicyOf(q: string, r: Ref) { r.name == AccessPolicyName(q) || r.name == ShadowPolicyName(q) }

  /** A peering takes its own policies away, and none of another. */
  lemma PoliciesStay(o: Objects, p: NetworkPeering, q: string, r: Ref)
    requires q != p.name && IsPolicyOf(q, r)
    ensures var made, gone := CreatedPolicies(o.policies, p), DeletedPolicies(o.policies, p);
      && (r in made <==> r in o.policies) && (r in gone <==> r in o.policies)
      && (r in o.policies ==> made[r] == gone[r] == o.policies[r])
  {
    NamesDiffer(p.name, q);
    PolicyKindsDiffer(p.name, q);
    PolicyKindsDiffer(q, p.name);
    hide AccessPolicyName, ShadowPolicyName, AccessPolicy, ShadowPolicy;
  }

  /** Two nodes that agree on everything but one annotation. */
  predicate SameBut(a: Node, b: Node, key: string) { Stripped(a, key) == Stripped(b, key) }

  /** A peer that is kept as it is but for one annotation, or kept out. */
  predicate KeptBut(after: map<Ref, Node>, before: map<Ref, Node>, r: Ref, key: string) {
    (r in after <==> r in before) && (r in before ==> SameBut(after[r], before[r], key))
  }

  /** A shadow of another peering, or a stored peer that is no shadow of this one. */
  ghost predicate IsOther(peers: map<Ref, Node>, p: NetworkPeering, r: Ref) {
    (exists q :: q != p.name && r.name == ShadowName(q)) || (r in peers && !IsShadow(p, r))
  }

  lemma OtherIsNoShadow(peers: map<Ref, Node>, p: NetworkPeering, r: Ref)
    requires IsOther(peers, p, r)
    ensures !IsShadow(p, r)
  {
    if q :| q != p.name && r.name == ShadowName(q) {
      NamesDiffer(p.name, q);
    }
  }

  /** Creating a peering adds no shadow of another one, and no peer but its own shadows changes in anything but the
      peering's own route. */
  lemma OthersStayWhenCreated(digest: Digest, o: Objects, p: NetworkPeering, gwA: Ref, gwB: Ref, r: Ref)
    requires Linked(digest, o, p, gwA, gwB) && IsOther(o.peers, p, r)
    ensures KeptBut(Created(digest, o, p, gwA, gwB).peers, o.peers, r, RouteAnnotationKey(digest, p.name))
  {
    hide RouteAnnotationKey, ShadowName, CreatedPeers, Stripped, IsShadow, IsOther;
    OtherIsNoShadow(o.peers, p, r);
    CreatedAt(digest, o.peers, p, gwA, gwB, CidrA(o, p), CidrB(o, p), r);
  }

  /** Nor does deleting one. */
  lemma OthersStayWhenDeleted(digest: Digest, o: Objects, p: NetworkPeering, pickA: Option<Ref>, pickB: Option<Ref>,
                              r: Ref)
    requires IsOther(o.peers, p, r)
    ensures KeptBut(Deleted(digest, o, p, pickA, pickB).peers, o.peers, r, RouteAnnotationKey(digest, p.name))
  {
    hide RouteAnnotationKey, ShadowName, DeletedPeers, Stripped, IsShadow, IsOther;
    OtherIsNoShadow(o.peers, p, r);
    DeletedAt(digest, o.peers, p, pickA, pickB, r);
    if r in o.peers {
      StripTwice(o.peers[r], RouteAnnotationKey(digest, p.name));
    }
  }

  /** Peerings with short names have different routes. */
  lemma RoutesDiffer(digest: Digest, p: string, q: string)
    requires q != p && |q| <= 49 && |p| <= 49
    ensures RouteAnnotationKey(digest, q) != RouteAnnotationKey(digest, p)
  {
    PlainRouteKey(digest, q);
    PlainRouteKey(digest, p);
    hide RouteAnnotationKey;
    Between("alattice.io/peering-route-", q, p, "");
    var prefix := "alattice.io/peering-route-";
    assert prefix + q + "" == prefix + q && prefix + p + "" == prefix + p;
  }

  predicate SameAnnotation(a: Node, b: Node, key: string) {
    (key in a.annotations <==> key in b.annotations) &&
    (key in a.annotations ==> a.annotations[key] == b.annotations[key])
  }

  /** A peer keeps the route of a peering when another one with a different key is created or deleted. */
  lemma RoutesStay(digest: Digest, o: Objects, p: NetworkPeering, q: string, gwA: Ref, gwB: Ref, pickA: Option<Ref>,
                   pickB: Option<Ref>, r: Ref)
    requires Linked(digest, o, p, gwA, gwB) && RouteAnnotationKey(digest, q) != RouteAnnotationKey(digest, p.name)
    requires r in o.peers && !IsShadow(p, r)
    ensures var made, gone := Created(digest, o, p, gwA, gwB).peers, Deleted(digest, o, p, pickA, pickB).peers;
      && r in made && SameAnnotation(made[r], o.peers[r], RouteAnnotationKey(digest, q))
      && r in gone && SameAnnotation(gone[r], o.peers[r], RouteAnnotationKey(digest, q))
  {
    hide RouteAnnotationKey, Created, Deleted, SameBut, SameAnnotation, Linked, IsShadow;
    OthersStayWhenCreated(digest, o, p, gwA, gwB, r);
    OthersStayWhenDeleted(digest, o, p, pickA, pickB, r);
    var made, gone := Created(digest, o, p, gwA, gwB).peers, Deleted(digest, o, p, pickA, pickB).peers;
    OtherAnnotation(made[r], o.peers[r], RouteAnnotationKey(digest, p.name), RouteAnnotationKey(digest, q));
    OtherAnnotation(gone[r], o.peers[r], RouteAnnotationKey(digest, p.name), RouteAnnotationKey(digest, q));
  }

  lemma OtherAnnotation(a: Node, b: Node, own: string, key: string)
    requires SameBut(a, b, own) && key != own
    ensures SameAnnotation(a, b, key)
  {
    assert key in a.annotations <==> key in a.annotations - {own};
    assert key in b.annotations <==> key in b.annotations - {own};
  }

  /** The stand-in for a gateway: its labels are the shadow's and its network's and no others, so it is in no other
      network and is no gateway; its only annotation is the CIDR; it has the gateway's keys, and the gateway's address
      when there is one. */
  lemma ShadowIs(digest: Digest, existing: Option<Node>, source: Node, net: string, cidr: string, l: string)
    ensures var s := ShadowNode(digest, existing, source, net, cidr);
      && (l in s.labels <==> l == "alattice.io/shadow" || l == NetworkLabelKey(digest, net))
      && (l in s.labels ==> s.labels[l] == "true")
      && s.annotations == map["alattice.io/shadow-allowed-ips" := cidr]
      && (source.address.Some? ==> s.address == source.address)
      && (source.address == None && existing.Some? ==> s.address == existing.value.address)
      && s.publicKey == source.publicKey && s.appId == source.appId && s.peerId == source.peerId
      && (existing == None ==> s.specNet == None) && (existing.Some? ==> s.specNet == existing.value.specNet)
  {
    hide NetworkLabelKey;
  }
}
