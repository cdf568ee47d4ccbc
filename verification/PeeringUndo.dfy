/** What deleting a peering leaves of any number of reconciles of it, each of which may have found other gateways. */
module PeeringUndo {
  import opened Prelude
  import opened KeyNames
  import opened Policy
  import opened Store
  import opened Peering

  predicate IsShadow(p: NetworkPeering, r: Ref) {
    r == Ref(p.nsA, ShadowName(p.name)) || r == Ref(p.nsB, ShadowName(p.name))
  }

  /** Deletion, read at one peer. */
  lemma DeletedAt(digest: Digest, peers: map<Ref, Node>, p: NetworkPeering, pickA: Option<Ref>, pickB: Option<Ref>,
                  r: Ref)
    ensures var after := DeletedPeers(digest, peers, p, pickA, pickB);
      && (r in after <==> r in peers && !IsShadow(p, r))
      && (r in after ==>
            after[r] ==
              if pickA == Some(r) || pickB == Some(r) then Stripped(peers[r], RouteAnnotationKey(digest, p.name))
              else peers[r])
  {
    hide RouteAnnotationKey, ShadowName, Unannotated, Stripped;
    var key := RouteAnnotationKey(digest, p.name);
    UnannotatedAt(peers, pickA, key, r);
    UnannotatedAt(Unannotated(peers, pickA, key), pickB, key, r);
    if r in peers {
      StripTwice(peers[r], key);
    }
  }

  lemma UnannotatedAt(peers: map<Ref, Node>, pick: Option<Ref>, key: string, r: Ref)
    ensures var after := Unannotated(peers, pick, key);
      (r in after <==> r in peers) &&
      (r in after ==> after[r] == if pick == Some(r) then Stripped(peers[r], key) else peers[r])
  {
  }

  lemma StripTwice(n: Node, key: string)
    ensures Stripped(Stripped(n, key), key) == Stripped(n, key)
  {
    assert n.annotations - {key} - {key} == n.annotations - {key};
  }

  lemma StripSet(n: Node, key: string, value: string)
    ensures Stripped(n.(annotations := n.annotations[key := value]), key) == Stripped(n, key)
  {
    assert n.annotations[key := value] - {key} == n.annotations - {key};
  }

  lemma AnnotatedAt(peers: map<Ref, Node>, g: Ref, read: Node, key: string, value: string, r: Ref)
    requires g in peers
    ensures var after := Annotated(peers, g, read, key, value);
      && after.Keys == peers.Keys
      && (r in peers && r != g ==> after[r] == peers[r])
      && (r in peers ==> Stripped(after[r], key) == Stripped(peers[r], key))
  {
    if r in peers {
      StripSet(peers[r], key, value);
    }
  }

  /** Creation, read at one peer, up to the peering's annotation. */
  lemma CreatedAt(digest: Digest, peers: map<Ref, Node>, p: NetworkPeering, gwA: Ref, gwB: Ref, cidrA: string,
                  cidrB: string, r: Ref)
    requires gwA in peers && gwB in peers
    ensures var after := CreatedPeers(digest, peers, p, gwA, gwB, cidrA, cidrB);
      && (r in after <==> r in peers || IsShadow(p, r))
      && (r in peers && !IsShadow(p, r) && r != gwA && r != gwB ==> after[r] == peers[r])
      && (r in peers && !IsShadow(p, r) ==>
            Stripped(after[r], RouteAnnotationKey(digest, p.name)) ==
              Stripped(peers[r], RouteAnnotationKey(digest, p.name)))
  {
    hide RouteAnnotationKey, ShadowName, ShadowNode, Annotated, Stripped;
    var key := RouteAnnotationKey(digest, p.name);
    AnnotatedAt(peers, gwA, peers[gwA], key, cidrB, r);
    var mid := Annotated(peers, gwA, peers[gwA], key, cidrB);
    assert gwB in mid by { AnnotatedAt(peers, gwA, peers[gwA], key, cidrB, gwB); }
    AnnotatedAt(mid, gwB, peers[gwB], key, cidrA, r);
  }

  // ---------------------------------------------------------------- the route

  /** A peer as before except for its annotations, which give the key that value. */
  predicate HasRoute(n: Node, before: Node, key: string, cidr: string) {
    && key in n.annotations && n.annotations[key] == cidr
    && n.labels == before.labels && n.address == before.address && n.specNet == before.specNet
  }

  lemma RouteIsAnnotated(digest: Digest, peers: map<Ref, Node>, p: NetworkPeering, gwA: Ref, gwB: Ref, cidrA: string,
                         cidrB: string)
    requires gwA in peers && gwB in peers && gwA != gwB
    ensures var after, key := RoutedPeers(digest, peers, p, gwA, gwB, cidrA, cidrB), RouteAnnotationKey(digest, p.name);
      && gwA in after && HasRoute(after[gwA], peers[gwA], key, cidrB)
      && gwB in after && HasRoute(after[gwB], peers[gwB], key, cidrA)
  {
    hide RouteAnnotationKey, Annotated, HasRoute;
    var key := RouteAnnotationKey(digest, p.name);
    var mid := Annotated(peers, gwA, peers[gwA], key, cidrB);
    AnnotatedRoute(peers, gwA, key, cidrB, gwB);
    AnnotatedRoute(mid, gwB, key, cidrA, gwA);
  }

  lemma AnnotatedRoute(peers: map<Ref, Node>, g: Ref, key: string, cidr: string, r: Ref)
    requires g in peers && r in peers && r != g
    ensures var after := Annotated(peers, g, peers[g], key, cidr);
      && after.Keys == peers.Keys && after[r] == peers[r] && HasRoute(after[g], peers[g], key, cidr)
  {
  }

  lemma RoutedIsSet(key: string, digest: Digest, peers: map<Ref, Node>, p: NetworkPeering, gwA: Ref, gwB: Ref,
                    cidrA: string, cidrB: string, g: Ref)
    requires gwA in peers && gwB in peers && (g == gwA || g == gwB) && key == RouteAnnotationKey(digest, p.name)
    ensures var after := RoutedPeers(digest, peers, p, gwA, gwB, cidrA, cidrB);
      g in after && key in after[g].annotations
  {
    hide RouteAnnotationKey, Annotated;
    var mid := Annotated(peers, gwA, peers[gwA], key, cidrB);
    AnnotationStays(peers, gwA, peers[gwA], key, cidrB, g);
    AnnotationStays(peers, gwA, peers[gwA], key, cidrB, gwB);
    AnnotationStays(mid, gwB, peers[gwB], key, cidrA, g);
  }

  lemma AnnotationStays(peers: map<Ref, Node>, r: Ref, read: Node, key: string, value: string, g: Ref)
    requires r in peers && g in peers
    ensures var after := Annotated(peers, r, read, key, value);
      && g in after
      && (key in peers[g].annotations ==> key in after[g].annotations)
      && (g == r && (key in read.annotations ==> key in peers[g].annotations) ==> key in after[g].annotations)
  {
  }

  /** Both gateways get the peering's route, and different ones get the other side's CIDR. */
  lemma RouteIsSet(digest: Digest, peers: map<Ref, Node>, p: NetworkPeering, gwA: Ref, gwB: Ref, cidrA: string,
                   cidrB: string, g: Ref)
    requires gwA in peers && gwB in peers && (g == gwA || g == gwB) && !IsShadow(p, g)
    ensures var after, key := CreatedPeers(digest, peers, p, gwA, gwB, cidrA, cidrB),
                      RouteAnnotationKey(digest, p.name);
      && g in after && key in after[g].annotations
      && (gwA != gwB ==> HasRoute(after[g], peers[g], key, if g == gwA then cidrB else cidrA))
  {
    hide RouteAnnotationKey, ShadowNode, ShadowName, RoutedPeers, HasRoute;
    RoutedIsSet(RouteAnnotationKey(digest, p.name), digest, peers, p, gwA, gwB, cidrA, cidrB, g);
    if gwA != gwB {
      RouteIsAnnotated(digest, peers, p, gwA, gwB, cidrA, cidrB);
    }
  }

  // ---------------------------------------------------------------- reconciles

  lemma PoliciesUndone(policies: map<Ref, LatticePolicy>, p: NetworkPeering)
    ensures DeletedPolicies(CreatedPolicies(policies, p), p) == DeletedPolicies(policies, p)
  {
    hide AccessPolicyName, ShadowPolicyName, AccessPolicy, ShadowPolicy;
    assert DeletedPolicies(CreatedPolicies(policies, p), p) == DeletedPolicies(policies, p);
  }

  /** Reconciles of one peering, each from the store the one before left and with the gateways it found. */
  ghost predicate IsReconciles(digest: Digest, p: NetworkPeering, stores: seq<Objects>, picks: seq<(Ref, Ref)>) {
    && |stores| == |picks| + 1
    && forall i :: 0 <= i < |picks| ==> IsReconcile(digest, p, stores[i], picks[i], stores[i + 1])
  }

  ghost predicate IsReconcile(digest: Digest, p: NetworkPeering, o: Objects, pick: (Ref, Ref), after: Objects) {
    Linked(digest, o, p, pick.0, pick.1) && after == Created(digest, o, p, pick.0, pick.1)
  }

  /** The gateways found by the first n reconciles. */
  function Found(picks: seq<(Ref, Ref)>, n: nat): set<Ref>
    requires n <= |picks|
  {
    if n == 0 then {} else Found(picks, n - 1) + {picks[n - 1].0, picks[n - 1].1}
  }

  lemma {:induction false} FoundIs(picks: seq<(Ref, Ref)>, n: nat, g: Ref)
    requires n <= |picks|
    ensures g in Found(picks, n) <==> exists i :: 0 <= i < n && (g == picks[i].0 || g == picks[i].1)
  {
    if n > 0 {
      FoundIs(picks, n - 1, g);
    }
  }

  /** One peer after reconciles that found these gateways: as before up to the peering's route, which it has if
      it was found, and exactly as before if it was not. */
  predicate MarkedAt(key: string, p: NetworkPeering, peers: map<Ref, Node>, after: map<Ref, Node>, gateways: set<Ref>,
                     r: Ref) {
    && (r in peers ==> r in after) && (r in after ==> r in peers || IsShadow(p, r))
    && (r in peers && !IsShadow(p, r) ==>
          && Stripped(after[r], key) == Stripped(peers[r], key)
          && (if r in gateways then key in after[r].annotations else after[r] == peers[r]))
  }

  lemma MarkedNext(digest: Digest, p: NetworkPeering, peers: map<Ref, Node>, before: map<Ref, Node>, gateways: set<Ref>,
                   a: Ref, b: Ref, cidrA: string, cidrB: string, r: Ref)
    requires a in before && b in before
    requires MarkedAt(RouteAnnotationKey(digest, p.name), p, peers, before, gateways, r)
    ensures MarkedAt(RouteAnnotationKey(digest, p.name), p, peers,
                     CreatedPeers(digest, before, p, a, b, cidrA, cidrB), gateways + {a, b}, r)
  {
    hide RouteAnnotationKey, CreatedPeers, IsShadow, Stripped, HasRoute;
    CreatedAt(digest, before, p, a, b, cidrA, cidrB, r);
    if (r == a || r == b) && !IsShadow(p, r) {
      RouteIsSet(digest, before, p, a, b, cidrA, cidrB, r);
    }
  }

  /** What every reconcile of the sequence leaves, up to the peering's own objects. */
  ghost predicate Marks(digest: Digest, p: NetworkPeering, o: Objects, after: Objects, gateways: set<Ref>) {
    && after == o.(peers := after.peers, policies := after.policies)
    && DeletedPolicies(after.policies, p) == DeletedPolicies(o.policies, p)
    && forall r :: MarkedAt(RouteAnnotationKey(digest, p.name), p, o.peers, after.peers, gateways, r)
  }

  lemma MarksNext(digest: Digest, p: NetworkPeering, o: Objects, before: Objects, pick: (Ref, Ref), after: Objects,
                  gateways: set<Ref>)
    requires Marks(digest, p, o, before, gateways) && IsReconcile(digest, p, before, pick, after)
    ensures Marks(digest, p, o, after, gateways + {pick.0, pick.1})
  {
    hide MarkedAt, CreatedPeers, CreatedPolicies, DeletedPolicies, HasLabel, NetworkLabelKey, RouteAnnotationKey;
    PoliciesUndone(before.policies, p);
    var key, all := RouteAnnotationKey(digest, p.name), gateways + {pick.0, pick.1};
    forall r ensures MarkedAt(key, p, o.peers, after.peers, all, r) {
      MarkedNext(digest, p, o.peers, before.peers, gateways, pick.0, pick.1, CidrA(before, p), CidrB(before, p), r);
    }
  }

  lemma {:induction false} ReconcilesMark(digest: Digest, p: NetworkPeering, stores: seq<Objects>,
                                          picks: seq<(Ref, Ref)>, n: nat)
    requires IsReconciles(digest, p, stores, picks) && n <= |picks|
    ensures Marks(digest, p, stores[0], stores[n], Found(picks, n))
  {
    hide IsReconcile, RouteAnnotationKey, DeletedPolicies;
    if n > 0 {
      ReconcilesMark(digest, p, stores, picks, n - 1);
      hide Marks;
      assert IsReconcile(digest, p, stores[n - 1], picks[n - 1], stores[n - 1 + 1]);
      MarksNext(digest, p, stores[0], stores[n - 1], picks[n - 1], stores[n], Found(picks, n - 1));
    }
  }

  // ---------------------------------------------------------------- one deletion

  predicate IsPeeringPolicy(p: NetworkPeering, r: Ref) {
    (r.ns == p.nsA || r.ns == p.nsB) && (r.name == AccessPolicyName(p.name) || r.name == ShadowPolicyName(p.name))
  }

  /** No object of the peering's names is stored, and the gateways do not carry its route. */
  predicate Untouched(digest: Digest, o: Objects, p: NetworkPeering, gateways: set<Ref>) {
    && (forall r | r in o.peers :: !IsShadow(p, r))
    && (forall r | r in o.policies :: !IsPeeringPolicy(p, r))
    && (forall g | g in gateways && g in o.peers :: RouteAnnotationKey(digest, p.name) !in o.peers[g].annotations)
  }

  lemma StripNothing(n: Node, key: string)
    requires key !in n.annotations
    ensures Stripped(n, key) == n
  {
    assert n.annotations - {key} == n.annotations;
  }

  lemma NoPoliciesToDelete(policies: map<Ref, LatticePolicy>, p: NetworkPeering)
    requires forall r | r in policies :: !IsPeeringPolicy(p, r)
    ensures DeletedPolicies(policies, p) == policies
  {
    hide AccessPolicyName, ShadowPolicyName;
    NotDropped(policies, p, p.nsA);
    NotDropped(policies, p, p.nsB);
  }

  lemma NotDropped(policies: map<Ref, LatticePolicy>, p: NetworkPeering, ns: string)
    requires forall r | r in policies :: !IsPeeringPolicy(p, r)
    requires ns == p.nsA || ns == p.nsB
    ensures DroppedPolicies(policies, p, ns) == policies
  {
    hide AccessPolicyName, ShadowPolicyName;
    assert IsPeeringPolicy(p, Ref(ns, AccessPolicyName(p.name)))
       && IsPeeringPolicy(p, Ref(ns, ShadowPolicyName(p.name)));
    assert policies - {Ref(ns, AccessPolicyName(p.name))} == policies;
    assert policies - {Ref(ns, ShadowPolicyName(p.name))} == policies;
  }

  predicate Removes(pickA: Option<Ref>, pickB: Option<Ref>, r: Ref) { pickA == Some(r) || pickB == Some(r) }

  /** The deletion finds every gateway that was found before it. */
  predicate FindsAll(gateways: set<Ref>, pickA: Option<Ref>, pickB: Option<Ref>) {
    forall g | g in gateways :: Removes(pickA, pickB, g)
  }

  /** It finds no peer that had the route before. */
  predicate FindsNew(digest: Digest, peers: map<Ref, Node>, p: NetworkPeering, pickA: Option<Ref>, pickB: Option<Ref>) {
    forall r | r in peers && Removes(pickA, pickB, r) :: RouteAnnotationKey(digest, p.name) !in peers[r].annotations
  }

  /** A deletion that finds all the gateways is the same after the reconciles as before them. */
  lemma RepeatsUndone(digest: Digest, p: NetworkPeering, stores: seq<Objects>, picks: seq<(Ref, Ref)>,
                      pickA: Option<Ref>, pickB: Option<Ref>)
    requires IsReconciles(digest, p, stores, picks) && FindsAll(Found(picks, |picks|), pickA, pickB)
    ensures Deleted(digest, stores[|picks|], p, pickA, pickB) == Deleted(digest, stores[0], p, pickA, pickB)
  {
    hide IsReconcile, RouteAnnotationKey, DeletedPeers, DeletedPolicies, Stripped, IsShadow;
    var o, after, gateways := stores[0], stores[|picks|], Found(picks, |picks|);
    ReconcilesMark(digest, p, stores, picks, |picks|);
    var left := DeletedPeers(digest, after.peers, p, pickA, pickB);
    var right := DeletedPeers(digest, o.peers, p, pickA, pickB);
    forall r ensures (r in left <==> r in right) && (r in left ==> left[r] == right[r]) {
      DeletedAt(digest, after.peers, p, pickA, pickB, r);
      DeletedAt(digest, o.peers, p, pickA, pickB, r);
      assert MarkedAt(RouteAnnotationKey(digest, p.name), p, o.peers, after.peers, gateways, r);
    }
  }

  /** One peer is back as it was. */
  lemma BackAt(digest: Digest, p: NetworkPeering, o: Objects, after: map<Ref, Node>, gateways: set<Ref>,
               pickA: Option<Ref>, pickB: Option<Ref>, r: Ref)
    requires Untouched(digest, o, p, gateways)
    requires MarkedAt(RouteAnnotationKey(digest, p.name), p, o.peers, after, gateways, r)
    ensures var left := DeletedPeers(digest, after, p, pickA, pickB);
      && (r in left <==> r in o.peers)
      && (r in left ==>
            (left[r] == o.peers[r] <==>
               if Removes(pickA, pickB, r) then RouteAnnotationKey(digest, p.name) !in o.peers[r].annotations
               else r !in gateways))
  {
    hide RouteAnnotationKey, DeletedPeers, IsShadow, IsPeeringPolicy;
    DeletedAt(digest, after, p, pickA, pickB, r);
    var key := RouteAnnotationKey(digest, p.name);
    if r in o.peers && key !in o.peers[r].annotations {
      StripNothing(o.peers[r], key);
    }
  }

  predicate StaysPut(digest: Digest, peers: map<Ref, Node>, p: NetworkPeering, gateways: set<Ref>,
                     pickA: Option<Ref>, pickB: Option<Ref>, r: Ref)
    requires r in peers
  {
    if Removes(pickA, pickB, r) then RouteAnnotationKey(digest, p.name) !in peers[r].annotations else r !in gateways
  }

  lemma PeersBackIff(digest: Digest, p: NetworkPeering, o: Objects, after: map<Ref, Node>, gateways: set<Ref>,
                     pickA: Option<Ref>, pickB: Option<Ref>)
    requires Untouched(digest, o, p, gateways) && gateways <= o.peers.Keys
    requires forall r :: MarkedAt(RouteAnnotationKey(digest, p.name), p, o.peers, after, gateways, r)
    ensures DeletedPeers(digest, after, p, pickA, pickB) == o.peers <==>
      FindsAll(gateways, pickA, pickB) && FindsNew(digest, o.peers, p, pickA, pickB)
  {
    hide RouteAnnotationKey, DeletedPeers, Untouched, MarkedAt;
    var left := DeletedPeers(digest, after, p, pickA, pickB);
    forall r
      ensures r in left <==> r in o.peers
      ensures r in left ==> (left[r] == o.peers[r] <==> StaysPut(digest, o.peers, p, gateways, pickA, pickB, r))
    {
      BackAt(digest, p, o, after, gateways, pickA, pickB, r);
    }
    PutIff(digest, o.peers, p, gateways, pickA, pickB);
    hide StaysPut, FindsAll, FindsNew;
    assert left == o.peers <==> forall r | r in left :: left[r] == o.peers[r];
  }

  lemma PutIff(digest: Digest, peers: map<Ref, Node>, p: NetworkPeering, gateways: set<Ref>, pickA: Option<Ref>,
               pickB: Option<Ref>)
    requires gateways <= peers.Keys
    ensures FindsAll(gateways, pickA, pickB) && FindsNew(digest, peers, p, pickA, pickB) <==>
      forall r | r in peers :: StaysPut(digest, peers, p, gateways, pickA, pickB, r)
  {
    hide RouteAnnotationKey, Removes;
    if forall r | r in peers :: StaysPut(digest, peers, p, gateways, pickA, pickB, r) {
      forall g | g in gateways ensures Removes(pickA, pickB, g) {
        assert g in peers && StaysPut(digest, peers, p, gateways, pickA, pickB, g);
      }
      forall r | r in peers && Removes(pickA, pickB, r)
        ensures RouteAnnotationKey(digest, p.name) !in peers[r].annotations
      {
        assert StaysPut(digest, peers, p, gateways, pickA, pickB, r);
      }
    }
  }

  /** A deletion gives the store back exactly when it finds every gateway a reconcile has found, and no peer that
      had the route before. */
  lemma DeletionRestoresIff(digest: Digest, p: NetworkPeering, stores: seq<Objects>, picks: seq<(Ref, Ref)>,
                            pickA: Option<Ref>, pickB: Option<Ref>)
    requires IsReconciles(digest, p, stores, picks) && Untouched(digest, stores[0], p, Found(picks, |picks|))
    ensures Deleted(digest, stores[|picks|], p, pickA, pickB) == stores[0] <==>
      FindsAll(Found(picks, |picks|), pickA, pickB) && FindsNew(digest, stores[0].peers, p, pickA, pickB)
  {
    hide IsReconcile, RouteAnnotationKey, DeletedPeers, DeletedPolicies, MarkedAt, IsShadow, FindsAll, FindsNew;
    var o, after, gateways := stores[0], stores[|picks|], Found(picks, |picks|);
    ReconcilesMark(digest, p, stores, picks, |picks|);
    NoPoliciesToDelete(o.policies, p);
    forall g | g in gateways ensures g in o.peers { FoundInStore(digest, p, stores, picks, g); }
    hide Untouched, Found, IsReconciles;
    PeersBackIff(digest, p, o, after.peers, gateways, pickA, pickB);
  }

  /** A gateway that is found was there from the start. */
  lemma FoundInStore(digest: Digest, p: NetworkPeering, stores: seq<Objects>, picks: seq<(Ref, Ref)>, g: Ref)
    requires IsReconciles(digest, p, stores, picks) && g in Found(picks, |picks|)
    requires forall r | r in stores[0].peers :: !IsShadow(p, r)
    ensures g in stores[0].peers
  {
    FoundIs(picks, |picks|, g);
    var i :| 0 <= i < |picks| && (g == picks[i].0 || g == picks[i].1);
    WasGateway(digest, p, stores, picks, i);
  }

  /** A gateway keeps the route of a deleted peering exactly when the deletion does not find it. */
  lemma RouteLeftBehind(digest: Digest, peers: map<Ref, Node>, p: NetworkPeering, pickA: Option<Ref>,
                        pickB: Option<Ref>, g: Ref)
    requires g in peers && !IsShadow(p, g) && RouteAnnotationKey(digest, p.name) in peers[g].annotations
    ensures g in DeletedPeers(digest, peers, p, pickA, pickB)
    ensures RouteAnnotationKey(digest, p.name) in DeletedPeers(digest, peers, p, pickA, pickB)[g].annotations
       <==> pickA != Some(g) && pickB != Some(g)
  {
    hide RouteAnnotationKey, DeletedPeers, IsShadow;
    DeletedAt(digest, peers, p, pickA, pickB, g);
  }

  /** Two networks of one namespace: deletion looks for the second network's gateway twice, so the first
      network's gateway keeps its route unless it is a member of both networks. */
  lemma SameNamespaceKeepsRoute(digest: Digest, peers: map<Ref, Node>, p: NetworkPeering, pickA: Option<Ref>,
                                pickB: Option<Ref>, g: Ref)
    requires p.nsA == p.nsB
    requires IsPick(digest, peers, p.nsA, FirstDeletedNet(p), pickA) && IsPick(digest, peers, p.nsB, p.netB, pickB)
    requires IsGateway(digest, peers, p.nsA, p.netA, g) && !IsGateway(digest, peers, p.nsB, p.netB, g)
    requires !IsShadow(p, g) && RouteAnnotationKey(digest, p.name) in peers[g].annotations
    ensures g in DeletedPeers(digest, peers, p, pickA, pickB)
    ensures RouteAnnotationKey(digest, p.name) in DeletedPeers(digest, peers, p, pickA, pickB)[g].annotations
  {
    hide RouteAnnotationKey, DeletedPeers, IsShadow, NetworkLabelKey, HasLabel;
    RouteLeftBehind(digest, peers, p, pickA, pickB, g);
  }

  // ---------------------------------------------------------------- whatever the deletion finds

  lemma ShadowIsNoGateway(digest: Digest, existing: Option<Node>, source: Node, net: string, cidr: string)
    ensures !HasLabel(ShadowNode(digest, existing, source, net, cidr).labels, GATEWAY_LABEL)
  {
    assert |SHADOW_LABEL| != |GATEWAY_LABEL|;
    assert NetworkLabelKey(digest, net)[12] == NETWORK_LABEL_PREFIX[12];
    assert GATEWAY_LABEL[12] != NETWORK_LABEL_PREFIX[12];
  }

  lemma ShadowsOf(digest: Digest, peers: map<Ref, Node>, p: NetworkPeering, gwA: Ref, gwB: Ref, cidrA: string,
                  cidrB: string, r: Ref)
    requires gwA in peers && gwB in peers && IsShadow(p, r)
    ensures r in CreatedPeers(digest, peers, p, gwA, gwB, cidrA, cidrB)
    ensures !HasLabel(CreatedPeers(digest, peers, p, gwA, gwB, cidrA, cidrB)[r].labels, GATEWAY_LABEL)
  {
    hide RoutedPeers, ShadowNode, HasLabel, ShadowName;
    var routed := RoutedPeers(digest, peers, p, gwA, gwB, cidrA, cidrB);
    var atB := Ref(p.nsB, ShadowName(p.name));
    var one := WithShadow(digest, routed, atB, peers[gwA], p.netB, cidrA);
    var atA := Ref(p.nsA, ShadowName(p.name));
    ShadowIsNoGateway(digest, if atB in routed then Some(routed[atB]) else None, peers[gwA], p.netB, cidrA);
    ShadowIsNoGateway(digest, if atA in one then Some(one[atA]) else None, peers[gwB], p.netA, cidrB);
  }

  ghost predicate NoShadowGateway(peers: map<Ref, Node>, p: NetworkPeering) {
    forall r | r in peers && IsShadow(p, r) :: !HasLabel(peers[r].labels, GATEWAY_LABEL)
  }

  ghost predicate SameGatewaysIn(digest: Digest, peers: map<Ref, Node>, after: map<Ref, Node>, ns: string,
                                 net: string) {
    forall r :: IsGateway(digest, after, ns, net, r) <==> IsGateway(digest, peers, ns, net, r)
  }

  /** Reconciling a peering makes no peer a gateway and stops none from being one. */
  lemma SameGateways(digest: Digest, o: Objects, p: NetworkPeering, gwA: Ref, gwB: Ref, ns: string, net: string, r: Ref)
    requires Linked(digest, o, p, gwA, gwB) && NoShadowGateway(o.peers, p)
    ensures var after := Created(digest, o, p, gwA, gwB).peers;
      && (IsGateway(digest, after, ns, net, r) <==> IsGateway(digest, o.peers, ns, net, r))
      && (r in after && IsShadow(p, r) ==> !HasLabel(after[r].labels, GATEWAY_LABEL))
  {
    hide CreatedPeers, CreatedPolicies, HasLabel, NetworkLabelKey, IsShadow, RouteAnnotationKey, Ready;
    var a, b := CidrA(o, p), CidrB(o, p);
    if IsShadow(p, r) {
      ShadowsOf(digest, o.peers, p, gwA, gwB, a, b, r);
    } else {
      CreatedAt(digest, o.peers, p, gwA, gwB, a, b, r);
      if r in o.peers {
        StrippedLabels(CreatedPeers(digest, o.peers, p, gwA, gwB, a, b)[r], o.peers[r],
                       RouteAnnotationKey(digest, p.name));
      }
    }
  }

  lemma StrippedLabels(a: Node, b: Node, key: string)
    requires Stripped(a, key) == Stripped(b, key)
    ensures a.labels == b.labels
  {
  }

  lemma GatewaysStayOnce(digest: Digest, o: Objects, p: NetworkPeering, gwA: Ref, gwB: Ref, ns: string, net: string)
    requires Linked(digest, o, p, gwA, gwB) && NoShadowGateway(o.peers, p)
    ensures var after := Created(digest, o, p, gwA, gwB).peers;
      SameGatewaysIn(digest, o.peers, after, ns, net) && NoShadowGateway(after, p)
  {
    hide Linked, Created, IsGateway, HasLabel, IsShadow;
    var after := Created(digest, o, p, gwA, gwB).peers;
    forall r ensures (IsGateway(digest, after, ns, net, r) <==> IsGateway(digest, o.peers, ns, net, r))
      && (r in after && IsShadow(p, r) ==> !HasLabel(after[r].labels, GATEWAY_LABEL))
    {
      SameGateways(digest, o, p, gwA, gwB, ns, net, r);
    }
  }

  lemma {:induction false} GatewaysStay(digest: Digest, p: NetworkPeering, stores: seq<Objects>,
                                        picks: seq<(Ref, Ref)>, n: nat, ns: string, net: string)
    requires IsReconciles(digest, p, stores, picks) && n <= |picks| && NoShadowGateway(stores[0].peers, p)
    ensures SameGatewaysIn(digest, stores[0].peers, stores[n].peers, ns, net) && NoShadowGateway(stores[n].peers, p)
  {
    hide Linked, Created, NoShadowGateway, SameGatewaysIn;
    Transitive(digest, stores[0].peers, stores[0].peers, stores[0].peers, ns, net);
    if n > 0 {
      GatewaysStay(digest, p, stores, picks, n - 1, ns, net);
      assert IsReconcile(digest, p, stores[n - 1], picks[n - 1], stores[n - 1 + 1]);
      GatewaysStayOnce(digest, stores[n - 1], p, picks[n - 1].0, picks[n - 1].1, ns, net);
      Transitive(digest, stores[0].peers, stores[n - 1].peers, stores[n].peers, ns, net);
    }
  }

  /** A gateway that a reconcile finds is one in the store the reconciles started from. */
  lemma WasGateway(digest: Digest, p: NetworkPeering, stores: seq<Objects>, picks: seq<(Ref, Ref)>, i: nat)
    requires IsReconciles(digest, p, stores, picks) && i < |picks|
    requires forall r | r in stores[0].peers :: !IsShadow(p, r)
    ensures IsGateway(digest, stores[0].peers, p.nsA, p.netA, picks[i].0)
    ensures IsGateway(digest, stores[0].peers, p.nsB, p.netB, picks[i].1)
  {
    hide Created, HasLabel, NetworkLabelKey, IsShadow, Ready;
    GatewaysStay(digest, p, stores, picks, i, p.nsA, p.netA);
    GatewaysStay(digest, p, stores, picks, i, p.nsB, p.netB);
    assert IsReconcile(digest, p, stores[i], picks[i], stores[i + 1]);
  }

  lemma Transitive(digest: Digest, a: map<Ref, Node>, b: map<Ref, Node>, c: map<Ref, Node>, ns: string, net: string)
    ensures SameGatewaysIn(digest, a, a, ns, net)
    ensures SameGatewaysIn(digest, a, b, ns, net) && SameGatewaysIn(digest, b, c, ns, net) ==>
      SameGatewaysIn(digest, a, c, ns, net)
  {
    hide IsGateway;
  }

  /** What a deletion may find. */
  ghost predicate Chosen(digest: Digest, peers: map<Ref, Node>, p: NetworkPeering, pickA: Option<Ref>,
                         pickB: Option<Ref>) {
    IsPick(digest, peers, p.nsA, FirstDeletedNet(p), pickA) && IsPick(digest, peers, p.nsB, p.netB, pickB)
  }

  ghost predicate IsSole(digest: Digest, peers: map<Ref, Node>, ns: string, net: string, g: Ref) {
    forall r :: IsGateway(digest, peers, ns, net, r) <==> r == g
  }

  /** Both gateways that got a route are the only ones their deletion can find. */
  ghost predicate SoleGateways(digest: Digest, peers: map<Ref, Node>, p: NetworkPeering, gwA: Ref, gwB: Ref) {
    IsSole(digest, peers, p.nsA, FirstDeletedNet(p), gwA) && IsSole(digest, peers, p.nsB, p.netB, gwB)
  }

  /** Whatever gateways the deletion finds, the store is back as it was. */
  ghost predicate AlwaysRestored(digest: Digest, o: Objects, after: Objects, p: NetworkPeering) {
    forall pickA, pickB | Chosen(digest, after.peers, p, pickA, pickB) :: Deleted(digest, after, p, pickA, pickB) == o
  }

  /** Picks that miss one of the two gateways, when a gateway is not sole. */
  lemma MissingPicks(digest: Digest, peers: map<Ref, Node>, p: NetworkPeering, gwA: Ref, gwB: Ref)
    returns (pickA: Ref, pickB: Ref, g: Ref)
    requires IsGateway(digest, peers, p.nsA, p.netA, gwA) && IsGateway(digest, peers, p.nsB, p.netB, gwB)
    requires !SoleGateways(digest, peers, p, gwA, gwB)
    ensures IsGateway(digest, peers, p.nsA, FirstDeletedNet(p), pickA) && IsGateway(digest, peers, p.nsB, p.netB, pickB)
    ensures (g == gwA || g == gwB) && pickA != g && pickB != g
  {
    InNamespace(digest, peers, p.nsA, p.netA, gwA);
    InNamespace(digest, peers, p.nsB, p.netB, gwB);
    if p.nsA == p.nsB {
      hide IsGateway;
      if gwA != gwB {
        pickA, pickB, g := gwB, gwB, gwA;
      } else {
        var r :| IsGateway(digest, peers, p.nsB, p.netB, r) && r != gwB;
        pickA, pickB, g := r, r, gwB;
      }
    } else {
      pickA, pickB, g := MissingInTwo(digest, peers, p, gwA, gwB);
    }
  }

  lemma MissingInTwo(digest: Digest, peers: map<Ref, Node>, p: NetworkPeering, gwA: Ref, gwB: Ref)
    returns (pickA: Ref, pickB: Ref, g: Ref)
    requires IsGateway(digest, peers, p.nsA, p.netA, gwA) && IsGateway(digest, peers, p.nsB, p.netB, gwB)
    requires p.nsA != p.nsB && !SoleGateways(digest, peers, p, gwA, gwB)
    ensures IsGateway(digest, peers, p.nsA, FirstDeletedNet(p), pickA) && IsGateway(digest, peers, p.nsB, p.netB, pickB)
    ensures (g == gwA || g == gwB) && pickA != g && pickB != g
  {
    forall net, r ensures IsGateway(digest, peers, p.nsA, net, r) ==> r.ns == p.nsA {
      InNamespace(digest, peers, p.nsA, net, r);
    }
    forall net, r ensures IsGateway(digest, peers, p.nsB, net, r) ==> r.ns == p.nsB {
      InNamespace(digest, peers, p.nsB, net, r);
    }
    hide IsGateway;
    if r :| IsGateway(digest, peers, p.nsA, p.netA, r) && r != gwA {
      pickA, pickB, g := r, gwB, gwA;
    } else {
      var r :| IsGateway(digest, peers, p.nsB, p.netB, r) && r != gwB;
      pickA, pickB, g := gwA, r, gwB;
    }
  }

  lemma InNamespace(digest: Digest, peers: map<Ref, Node>, ns: string, net: string, r: Ref)
    ensures IsGateway(digest, peers, ns, net, r) ==> r.ns == ns
  {
  }

  lemma StillGateway(digest: Digest, peers: map<Ref, Node>, after: map<Ref, Node>, ns: string, net: string, r: Ref)
    requires SameGatewaysIn(digest, peers, after, ns, net) && IsGateway(digest, peers, ns, net, r)
    ensures IsPick(digest, after, ns, net, Some(r))
  {
    hide IsGateway;
  }

  /** Every pair of gateways a reconcile has found is the only one its deletion can find. */
  ghost predicate AllSole(digest: Digest, peers: map<Ref, Node>, p: NetworkPeering, picks: seq<(Ref, Ref)>) {
    forall i :: 0 <= i < |picks| ==> SoleGateways(digest, peers, p, picks[i].0, picks[i].1)
  }

  lemma NoShadows(digest: Digest, o: Objects, p: NetworkPeering, gateways: set<Ref>)
    requires Untouched(digest, o, p, gateways)
    ensures NoShadowGateway(o.peers, p) && forall r | r in o.peers :: !IsShadow(p, r)
  {
    hide IsShadow, RouteAnnotationKey, IsPeeringPolicy;
  }

  /** The deletion can only find the sole gateways. */
  lemma FindsSole(digest: Digest, peers: map<Ref, Node>, after: map<Ref, Node>, p: NetworkPeering, a: Ref, b: Ref,
                  pickA: Option<Ref>, pickB: Option<Ref>)
    requires SoleGateways(digest, peers, p, a, b) && Chosen(digest, after, p, pickA, pickB)
    requires SameGatewaysIn(digest, peers, after, p.nsA, FirstDeletedNet(p))
    requires SameGatewaysIn(digest, peers, after, p.nsB, p.netB)
    ensures pickA == Some(a) && pickB == Some(b)
  {
    hide IsGateway, FirstDeletedNet;
    assert IsGateway(digest, peers, p.nsA, FirstDeletedNet(p), a) && IsGateway(digest, peers, p.nsB, p.netB, b);
    assert IsGateway(digest, after, p.nsA, FirstDeletedNet(p), a) && IsGateway(digest, after, p.nsB, p.netB, b);
  }

  lemma SoleIsOne(digest: Digest, peers: map<Ref, Node>, p: NetworkPeering, a: Ref, b: Ref, c: Ref, d: Ref)
    requires SoleGateways(digest, peers, p, a, b) && SoleGateways(digest, peers, p, c, d)
    ensures a == c && b == d
  {
    hide IsGateway, FirstDeletedNet;
    assert IsGateway(digest, peers, p.nsA, FirstDeletedNet(p), a) && IsGateway(digest, peers, p.nsB, p.netB, b);
  }

  /** With sole gateways the deletion cannot miss: whatever it finds, the store is back as it was. */
  lemma SoleGatewaysRestored(digest: Digest, p: NetworkPeering, stores: seq<Objects>, picks: seq<(Ref, Ref)>,
                             pickA: Option<Ref>, pickB: Option<Ref>)
    requires IsReconciles(digest, p, stores, picks) && Untouched(digest, stores[0], p, Found(picks, |picks|))
    requires picks != [] && AllSole(digest, stores[0].peers, p, picks)
    requires Chosen(digest, stores[|picks|].peers, p, pickA, pickB)
    ensures Deleted(digest, stores[|picks|], p, pickA, pickB) == stores[0]
  {
    hide IsReconcile, Untouched, SoleGateways, Chosen, Deleted, NoShadowGateway, FirstDeletedNet, SameGatewaysIn;
    hide Found, RouteAnnotationKey;
    var o := stores[0];
    NoShadows(digest, o, p, Found(picks, |picks|));
    GatewaysStay(digest, p, stores, picks, |picks|, p.nsA, FirstDeletedNet(p));
    GatewaysStay(digest, p, stores, picks, |picks|, p.nsB, p.netB);
    assert SoleGateways(digest, o.peers, p, picks[0].0, picks[0].1);
    FindsSole(digest, o.peers, stores[|picks|].peers, p, picks[0].0, picks[0].1, pickA, pickB);
    forall g ensures g in Found(picks, |picks|) <==> Removes(pickA, pickB, g) {
      FoundIs(picks, |picks|, g);
      forall i | 0 <= i < |picks| ensures picks[i] == picks[0] {
        assert SoleGateways(digest, o.peers, p, picks[i].0, picks[i].1);
        SoleIsOne(digest, o.peers, p, picks[i].0, picks[i].1, picks[0].0, picks[0].1);
      }
    }
    NewIfUntouched(digest, o, p, Found(picks, |picks|), pickA, pickB);
    DeletionRestoresIff(digest, p, stores, picks, pickA, pickB);
  }

  lemma NewIfUntouched(digest: Digest, o: Objects, p: NetworkPeering, gateways: set<Ref>, pickA: Option<Ref>,
                       pickB: Option<Ref>)
    requires Untouched(digest, o, p, gateways) && forall r | Removes(pickA, pickB, r) :: r in gateways
    ensures FindsNew(digest, o.peers, p, pickA, pickB)
  {
    hide IsShadow, RouteAnnotationKey, IsPeeringPolicy, Removes;
  }

  lemma MissedIfNotSole(digest: Digest, p: NetworkPeering, stores: seq<Objects>, picks: seq<(Ref, Ref)>, i: nat)
    requires IsReconciles(digest, p, stores, picks) && Untouched(digest, stores[0], p, Found(picks, |picks|))
    requires i < |picks| && !SoleGateways(digest, stores[0].peers, p, picks[i].0, picks[i].1)
    ensures !AlwaysRestored(digest, stores[0], stores[|picks|], p)
  {
    hide IsReconcile, Untouched, SoleGateways, Deleted, IsShadow, IsGateway, NoShadowGateway, FirstDeletedNet;
    hide SameGatewaysIn, IsPick, FindsNew, Found;
    NoShadows(digest, stores[0], p, Found(picks, |picks|));
    WasGateway(digest, p, stores, picks, i);
    var pickA, pickB, g := MissingPicks(digest, stores[0].peers, p, picks[i].0, picks[i].1);
    GatewaysStay(digest, p, stores, picks, |picks|, p.nsA, FirstDeletedNet(p));
    GatewaysStay(digest, p, stores, picks, |picks|, p.nsB, p.netB);
    StillGateway(digest, stores[0].peers, stores[|picks|].peers, p.nsA, FirstDeletedNet(p), pickA);
    StillGateway(digest, stores[0].peers, stores[|picks|].peers, p.nsB, p.netB, pickB);
    assert Chosen(digest, stores[|picks|].peers, p, Some(pickA), Some(pickB));
    FoundIs(picks, |picks|, g);
    DeletionRestoresIff(digest, p, stores, picks, Some(pickA), Some(pickB));
    assert !Removes(Some(pickA), Some(pickB), g);
  }

  /** After one or more reconciles, whatever gateways each of them found, a deletion restores the store whatever
      gateways it finds, exactly when each pair of gateways found before is the only one the deletion can find.
      Within one namespace it looks for the second network's gateway twice, so there it takes one gateway that is
      the only one of both. */
  lemma RestoredIffSole(digest: Digest, p: NetworkPeering, stores: seq<Objects>, picks: seq<(Ref, Ref)>)
    requires IsReconciles(digest, p, stores, picks) && Untouched(digest, stores[0], p, Found(picks, |picks|))
    requires picks != []
    ensures AlwaysRestored(digest, stores[0], stores[|picks|], p) <==> AllSole(digest, stores[0].peers, p, picks)
  {
    hide IsReconcile, Untouched, SoleGateways, Chosen, Deleted;
    if AllSole(digest, stores[0].peers, p, picks) {
      forall pickA, pickB | Chosen(digest, stores[|picks|].peers, p, pickA, pickB)
        ensures Deleted(digest, stores[|picks|], p, pickA, pickB) == stores[0]
      {
        SoleGatewaysRestored(digest, p, stores, picks, pickA, pickB);
      }
    } else {
      var i :| 0 <= i < |picks| && !SoleGateways(digest, stores[0].peers, p, picks[i].0, picks[i].1);
      MissedIfNotSole(digest, p, stores, picks, i);
    }
  }
}
