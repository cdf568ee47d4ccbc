/** Network peering: what the reconciler stores for a peering of two networks, and what its deletion takes
    away. */
module Peering {
  import opened Prelude
  import opened KeyNames
  import opened Policy
  import opened AllowedIPs
  import opened Store

  datatype NetworkPeering = NetworkPeering(name: string, nsA: string, netA: string, nsB: string, netB: string)

  function ShadowName(peering: string): string { "peering-shadow-" + peering }
  function AccessPolicyName(peering: string): string { "lattice-peering-" + peering + "-gw-access" }
  function ShadowPolicyName(peering: string): string { "lattice-peering-" + peering + "-shadow" }

  // ---------------------------------------------------------------- stored objects

  /** Sets the annotation unless the copy read before already has it. */
  function Annotated(peers: map<Ref, Node>, r: Ref, read: Node, key: string, value: string): map<Ref, Node>
    requires r in peers
  {
    if Carries(read, key, value) then peers
    else peers[r := peers[r].(annotations := peers[r].annotations[key := value])]
  }

  predicate Carries(n: Node, key: string, value: string) { key in n.annotations && n.annotations[key] == value }

  function Stripped(n: Node, key: string): Node { n.(annotations := n.annotations - {key}) }

  function Unannotated(peers: map<Ref, Node>, pick: Option<Ref>, key: string): map<Ref, Node> {
    if pick.Some? && pick.value in peers then peers[pick.value := Stripped(peers[pick.value], key)] else peers
  }

  /** The stand-in for a remote gateway: its keys and address, its network's CIDR as allowed addresses. */
  function ShadowNode(digest: Digest, existing: Option<Node>, source: Node, net: string, cidr: string): Node {
    Node(
      map[SHADOW_LABEL := "true", NetworkLabelKey(digest, net) := "true"],
      map[SHADOW_ALLOWED_IPS := cidr],
      if existing.Some? then existing.value.specNet else None,
      if source.address.Some? then source.address else if existing.Some? then existing.value.address else None,
      source.appId, source.publicKey, source.peerId)
  }

  function WithShadow(digest: Digest, peers: map<Ref, Node>, r: Ref, source: Node, net: string,
                      cidr: string): map<Ref, Node> {
    peers[r := ShadowNode(digest, if r in peers then Some(peers[r]) else None, source, net, cidr)]
  }

  const TO_GATEWAY := [TrafficSpec([Selection(Some(Selector(map[GATEWAY_LABEL := "true"], [])), None)], [])]
  const TO_SHADOW := [TrafficSpec([Selection(Some(Selector(map[SHADOW_LABEL := "true"], [])), None)], [])]

  function AccessPolicy(net: string): LatticePolicy { LatticePolicy(net, EVERYONE, TO_GATEWAY, TO_GATEWAY, "") }

  function ShadowPolicy(net: string): LatticePolicy {
    LatticePolicy(net, Selector(map[GATEWAY_LABEL := "true"], []), [], TO_SHADOW, "")
  }

  function WithPolicies(policies: map<Ref, LatticePolicy>, peering: string, ns: string,
                        net: string): map<Ref, LatticePolicy> {
    policies[Ref(ns, AccessPolicyName(peering)) := AccessPolicy(net)]
            [Ref(ns, ShadowPolicyName(peering)) := ShadowPolicy(net)]
  }

  predicate Ready(o: Objects, r: Ref) { r in o.networks && o.networks[r].ready && o.networks[r].cidr != "" }

  predicate IsGateway(digest: Digest, peers: map<Ref, Node>, ns: string, net: string, r: Ref) {
    r in peers && r.ns == ns &&
    HasLabel(peers[r].labels, GATEWAY_LABEL) && HasLabel(peers[r].labels, NetworkLabelKey(digest, net))
  }

  /** What findGateway may answer: one of the gateways, whichever is listed first. */
  ghost predicate IsPick(digest: Digest, peers: map<Ref, Node>, ns: string, net: string, pick: Option<Ref>) {
    match pick
    case Some(r) => IsGateway(digest, peers, ns, net, r)
    case None => forall r :: !IsGateway(digest, peers, ns, net, r)
  }

  ghost predicate Linked(digest: Digest, o: Objects, p: NetworkPeering, gwA: Ref, gwB: Ref) {
    && Ready(o, Ref(p.nsA, p.netA)) && Ready(o, Ref(p.nsB, p.netB))
    && IsGateway(digest, o.peers, p.nsA, p.netA, gwA) && IsGateway(digest, o.peers, p.nsB, p.netB, gwB)
  }

  function CidrA(o: Objects, p: NetworkPeering): string
    requires Ready(o, Ref(p.nsA, p.netA))
  {
    o.networks[Ref(p.nsA, p.netA)].cidr
  }

  function CidrB(o: Objects, p: NetworkPeering): string
    requires Ready(o, Ref(p.nsB, p.netB))
  {
    o.networks[Ref(p.nsB, p.netB)].cidr
  }

  function RoutedPeers(digest: Digest, peers: map<Ref, Node>, p: NetworkPeering, gwA: Ref, gwB: Ref, cidrA: string,
                       cidrB: string): map<Ref, Node>
    requires gwA in peers && gwB in peers
  {
    var key := RouteAnnotationKey(digest, p.name);
    Annotated(Annotated(peers, gwA, peers[gwA], key, cidrB), gwB, peers[gwB], key, cidrA)
  }

  function CreatedPeers(digest: Digest, peers: map<Ref, Node>, p: NetworkPeering, gwA: Ref, gwB: Ref, cidrA: string,
                        cidrB: string): map<Ref, Node>
    requires gwA in peers && gwB in peers
  {
    WithShadow(digest, WithShadow(digest, RoutedPeers(digest, peers, p, gwA, gwB, cidrA, cidrB),
                                  Ref(p.nsB, ShadowName(p.name)), peers[gwA], p.netB, cidrA),
               Ref(p.nsA, ShadowName(p.name)), peers[gwB], p.netA, cidrB)
  }

  function CreatedPolicies(policies: map<Ref, LatticePolicy>, p: NetworkPeering): map<Ref, LatticePolicy> {
    WithPolicies(WithPolicies(policies, p.name, p.nsA, p.netA), p.name, p.nsB, p.netB)
  }

  ghost function Created(digest: Digest, o: Objects, p: NetworkPeering, gwA: Ref, gwB: Ref): Objects
    requires Linked(digest, o, p, gwA, gwB)
  {
    o.(peers := CreatedPeers(digest, o.peers, p, gwA, gwB, CidrA(o, p), CidrB(o, p)),
       policies := CreatedPolicies(o.policies, p))
  }

  function DroppedPeers(peers: map<Ref, Node>, p: NetworkPeering, ns: string): map<Ref, Node> {
    peers - {Ref(ns, ShadowName(p.name))}
  }

  function DroppedPolicies(policies: map<Ref, LatticePolicy>, p: NetworkPeering, ns: string): map<Ref, LatticePolicy> {
    policies - {Ref(ns, AccessPolicyName(p.name))} - {Ref(ns, ShadowPolicyName(p.name))}
  }

  function DeletedPeers(digest: Digest, peers: map<Ref, Node>, p: NetworkPeering, pickA: Option<Ref>,
                        pickB: Option<Ref>): map<Ref, Node> {
    var key := RouteAnnotationKey(digest, p.name);
    DroppedPeers(DroppedPeers(Unannotated(Unannotated(peers, pickA, key), pickB, key), p, p.nsA), p, p.nsB)
  }

  function DeletedPolicies(policies: map<Ref, LatticePolicy>, p: NetworkPeering): map<Ref, LatticePolicy> {
    DroppedPolicies(DroppedPolicies(policies, p, p.nsA), p, p.nsB)
  }

  function Deleted(digest: Digest, o: Objects, p: NetworkPeering, pickA: Option<Ref>, pickB: Option<Ref>): Objects {
    o.(peers := DeletedPeers(digest, o.peers, p, pickA, pickB), policies := DeletedPolicies(o.policies, p))
  }

  /** The network whose gateway deletion looks for in the first namespace. */
  function FirstDeletedNet(p: NetworkPeering): string { if p.nsA == p.nsB then p.netB else p.netA }

  datatype Outcome = Established | Failed

  // ---------------------------------------------------------------- the reconciler

  class Reconciler {
    const digest: Digest
    var objects: Objects

    constructor (digest: Digest, objects: Objects)
      ensures this.digest == digest && this.objects == objects
    {
      this.digest, this.objects := digest, objects;
    }

    method FindGateway(ns: string, net: string) returns (pick: Option<Ref>)
      ensures IsPick(digest, objects.peers, ns, net, pick)
    {
      if r :| r in objects.peers && IsGateway(digest, objects.peers, ns, net, r) {
        pick := Some(r);
      } else {
        pick := None;
      }
    }

    /** Only that annotation of that peer can change. It has the value afterwards unless the copy read before
        shows the value and the stored peer has lost it since; then nothing changes. */
    method EnsureAnnotation(r: Ref, read: Node, key: string, value: string)
      requires r in objects.peers
      modifies this
      ensures objects == old(objects).(peers := objects.peers) && objects.peers.Keys == old(objects).peers.Keys
      ensures forall q | q in objects.peers && q != r :: objects.peers[q] == old(objects).peers[q]
      ensures Stripped(objects.peers[r], key) == Stripped(old(objects).peers[r], key)
      ensures Carries(objects.peers[r], key, value) <==>
        !Carries(read, key, value) || Carries(old(objects).peers[r], key, value)
      ensures Carries(read, key, value) ==> objects == old(objects)
    {
      if key in read.annotations && read.annotations[key] == value {
        return;
      }
      var n := objects.peers[r];
      assert n.annotations[key := value] - {key} == n.annotations - {key};
      objects := objects.(peers := objects.peers[r := n.(annotations := n.annotations[key := value])]);
    }

    method RemoveAnnotation(pick: Option<Ref>, key: string)
      modifies this
      ensures objects == old(objects).(peers := Unannotated(old(objects).peers, pick, key))
    {
      if pick.Some? && pick.value in objects.peers {
        var n := objects.peers[pick.value];
        if key in n.annotations {
          objects := objects.(peers := objects.peers[pick.value := Stripped(n, key)]);
        } else {
          assert n.annotations - {key} == n.annotations;
          assert objects.peers[pick.value := n] == objects.peers;
        }
      }
    }

    method EnsureShadowPeer(r: Ref, source: Node, net: string, cidr: string)
      modifies this
      ensures objects == old(objects).(peers := WithShadow(digest, old(objects).peers, r, source, net, cidr))
    {
      var labels := map[SHADOW_LABEL := "true", NetworkLabelKey(digest, net) := "true"];
      var annotations := map[SHADOW_ALLOWED_IPS := cidr];
      if r !in objects.peers {
        var created := Node(labels, annotations, None, None, source.appId, source.publicKey, source.peerId);
        if source.address.Some? {
          created := created.(address := source.address);
        }
        objects := objects.(peers := objects.peers[r := created]);
      } else {
        var copy := objects.peers[r].(labels := labels, annotations := annotations,
                                      publicKey := source.publicKey, appId := source.appId, peerId := source.peerId);
        if source.address.Some? && copy.address != source.address {
          copy := copy.(address := source.address);
        }
        objects := objects.(peers := objects.peers[r := copy]);
      }
    }

    method EnsurePolicies(peering: string, ns: string, net: string)
      modifies this
      ensures objects == old(objects).(policies := WithPolicies(old(objects).policies, peering, ns, net))
    {
      objects := objects.(policies := objects.policies[Ref(ns, AccessPolicyName(peering)) := AccessPolicy(net)]);
      objects := objects.(policies := objects.policies[Ref(ns, ShadowPolicyName(peering)) := ShadowPolicy(net)]);
    }

    /** Establishes the peering exactly when both networks are ready and both have a gateway; otherwise
        nothing is stored. */
    method ReconcileNormal(p: NetworkPeering) returns (r: Outcome, gwA: Option<Ref>, gwB: Option<Ref>)
      modifies this
      ensures r == Failed ==> objects == old(objects)
      ensures r == Failed <==>
        || Ref(p.nsA, p.netA) !in old(objects).networks || Ref(p.nsB, p.netB) !in old(objects).networks
        || !old(objects).networks[Ref(p.nsA, p.netA)].ready || !old(objects).networks[Ref(p.nsB, p.netB)].ready
        || old(objects).networks[Ref(p.nsA, p.netA)].cidr == "" || old(objects).networks[Ref(p.nsB, p.netB)].cidr == ""
        || (forall g :: !IsGateway(digest, old(objects).peers, p.nsA, p.netA, g))
        || (forall g :: !IsGateway(digest, old(objects).peers, p.nsB, p.netB, g))
      ensures r == Established ==> gwA.Some? && gwB.Some? && Linked(digest, old(objects), p, gwA.value, gwB.value)
      ensures r == Established ==> objects == Created(digest, old(objects), p, gwA.value, gwB.value)
    {
      hide NetworkLabelKey, RouteAnnotationKey, ShadowNode, ShadowName, WithPolicies, HasLabel;
      gwA, gwB := None, None;
      if !Ready(objects, Ref(p.nsA, p.netA)) || !Ready(objects, Ref(p.nsB, p.netB)) {
        return Failed, None, None;
      }
      var cidrA, cidrB := CidrA(objects, p), CidrB(objects, p);
      gwA := FindGateway(p.nsA, p.netA);
      if gwA.None? {
        return Failed, None, None;
      }
      gwB := FindGateway(p.nsB, p.netB);
      if gwB.None? {
        return Failed, None, None;
      }
      var nodeA, nodeB := objects.peers[gwA.value], objects.peers[gwB.value];
      var key := RouteAnnotationKey(digest, p.name);
      var before := objects.peers;
      EnsureAnnotation(gwA.value, nodeA, key, cidrB);
      AnnotatedIs(before, objects.peers, gwA.value, nodeA, key, cidrB);
      before := objects.peers;
      EnsureAnnotation(gwB.value, nodeB, key, cidrA);
      AnnotatedIs(before, objects.peers, gwB.value, nodeB, key, cidrA);
      EnsureShadowPeer(Ref(p.nsB, ShadowName(p.name)), nodeA, p.netB, cidrA);
      EnsureShadowPeer(Ref(p.nsA, ShadowName(p.name)), nodeB, p.netA, cidrB);
      EnsurePolicies(p.name, p.nsA, p.netA);
      EnsurePolicies(p.name, p.nsB, p.netB);
      r := Established;
    }

    method ReconcileDelete(p: NetworkPeering) returns (pickA: Option<Ref>, pickB: Option<Ref>)
      modifies this
      ensures IsPick(digest, old(objects).peers, p.nsA, FirstDeletedNet(p), pickA)
      ensures IsPick(digest, old(objects).peers, p.nsB, p.netB, pickB)
      ensures objects == Deleted(digest, old(objects), p, pickA, pickB)
    {
      hide RouteAnnotationKey, IsPick, Unannotated, DroppedPeers, DroppedPolicies;
      var key := RouteAnnotationKey(digest, p.name);
      pickA := FindGateway(p.nsA, FirstDeletedNet(p));
      RemoveAnnotation(pickA, key);
      pickB := FindGateway(p.nsB, p.netB);
      UnannotatedPick(digest, old(objects).peers, pickA, key, p.nsB, p.netB, pickB);
      RemoveAnnotation(pickB, key);
      DeleteIn(p, p.nsA);
      DeleteIn(p, p.nsB);
    }

    method DeleteIn(p: NetworkPeering, ns: string)
      modifies this
      ensures objects == old(objects).(peers := DroppedPeers(old(objects).peers, p, ns),
                                     policies := DroppedPolicies(old(objects).policies, p, ns))
    {
      objects := objects.(peers := objects.peers - {Ref(ns, ShadowName(p.name))});
      objects := objects.(policies := objects.policies - {Ref(ns, AccessPolicyName(p.name))});
      objects := objects.(policies := objects.policies - {Ref(ns, ShadowPolicyName(p.name))});
    }
  }

  /** What ensuring an annotation promises leaves one result. */
  lemma AnnotatedIs(peers: map<Ref, Node>, after: map<Ref, Node>, r: Ref, read: Node, key: string, value: string)
    requires r in peers && after.Keys == peers.Keys && Stripped(after[r], key) == Stripped(peers[r], key)
    requires forall q | q in after && q != r :: after[q] == peers[q]
    requires if Carries(read, key, value) then after == peers else Carries(after[r], key, value)
    ensures after == Annotated(peers, r, read, key, value)
  {
    if !Carries(read, key, value) {
      var was, now := peers[r].annotations, after[r].annotations;
      forall k ensures (k in now <==> k in was[key := value]) && (k in now ==> now[k] == was[key := value][k]) {
        assert k != key ==> (k in now <==> k in now - {key}) && (k in was <==> k in was - {key});
        assert k != key && k in now ==> now[k] == (now - {key})[k] && was[k] == (was - {key})[k];
      }
      assert now == was[key := value];
    }
  }

  lemma UnannotatedPick(digest: Digest, peers: map<Ref, Node>, taken: Option<Ref>, key: string, ns: string,
                        net: string, pick: Option<Ref>)
    requires IsPick(digest, Unannotated(peers, taken, key), ns, net, pick)
    ensures IsPick(digest, peers, ns, net, pick)
  {
    hide NetworkLabelKey, HasLabel;
    assert forall r :: IsGateway(digest, Unannotated(peers, taken, key), ns, net, r) <==>
      IsGateway(digest, peers, ns, net, r);
  }
}
