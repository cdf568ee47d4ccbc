/** A peer object as the peer reconciler sees it, the phase switch, and the patches it writes. */
module Peers {
  import opened Prelude
  import opened Ipv4
  import opened KeyNames

  datatype Phase = Unset | Pending | Ready | Failed | Unknown

  type Labels = map<string, string>

  datatype Peer = Peer(
    finalizer: bool,
    hasKeys: bool,
    specNet: Option<string>,
    labels: Labels,
    phase: Phase,
    activeNet: Option<string>,
    address: Option<Addr>)

  function NewPeer(specNet: Option<string>, labels: Labels): Peer {
    Peer(false, false, specNet, labels, Unset, None, None)
  }

  /** What one reconcile of a (non-shadow, not deleted) peer sets out to do. */
  datatype Action = AddFinalizer | MakeKeys | Initialize | GoIdle | Leave | SkipJoin | Join | ToPending | Refresh

  function Decide(p: Peer): Action {
    if !p.finalizer then AddFinalizer
    else match p.phase
      case Pending => DecidePending(p)
      case Ready => if p.specNet != p.activeNet then ToPending else Refresh
      case Failed => ToPending
      case _ => if !p.hasKeys then MakeKeys else Initialize
  }

  function DecidePending(p: Peer): Action {
    if p.specNet == None then
      if p.activeNet == None then GoIdle else Leave
    else if p.activeNet == None then Join
    else if p.activeNet != p.specNet then Leave
    else SkipJoin
  }

  // ---------------------------------------------------------------- network labels

  function NetworkLabels(labels: Labels): set<string> {
    set k | k in labels && HasPrefix(k, NETWORK_LABEL_PREFIX)
  }

  /** The labels that are not network labels agree, keys and values. */
  ghost predicate SameOwnLabels(x: Labels, y: Labels) {
    forall k | !HasPrefix(k, NETWORK_LABEL_PREFIX) :: (k in x <==> k in y) && (k in x ==> x[k] == y[k])
  }

  function WithoutNetworkLabels(labels: Labels): (r: Labels)
    ensures NetworkLabels(r) == {}
    ensures SameOwnLabels(r, labels)
  {
    map k | k in labels && !HasPrefix(k, NETWORK_LABEL_PREFIX) :: labels[k]
  }

  /** The update of ensurePeerSpec: exactly one network label, the one of Spec.Network. */
  function Labelled(digest: Digest, p: Peer): (r: Peer)
    requires p.specNet.Some?
    ensures NetworkLabels(r.labels) == {NetworkLabelKey(digest, p.specNet.value)}
    ensures NetworkLabelKey(digest, p.specNet.value) in r.labels
    ensures r.labels[NetworkLabelKey(digest, p.specNet.value)] == "true"
    ensures r == p.(labels := r.labels) && SameOwnLabels(r.labels, p.labels)
  {
    var key := NetworkLabelKey(digest, p.specNet.value);
    p.(labels := WithoutNetworkLabels(p.labels)[key := "true"])
  }

  function Unlabelled(p: Peer): (r: Peer)
    ensures NetworkLabels(r.labels) == {}
    ensures r == p.(labels := r.labels) && SameOwnLabels(r.labels, p.labels)
  {
    p.(labels := WithoutNetworkLabels(p.labels))
  }

  // ---------------------------------------------------------------- status updates

  function Joined(p: Peer, a: Addr): Peer {
    p.(phase := Ready, address := Some(a), activeNet := p.specNet)
  }

  function Cleared(p: Peer): Peer {
    p.(phase := Ready, address := None, activeNet := None)
  }

  // ---------------------------------------------------------------- merge patches

  /** client.MergeFrom: only the fields that differ between `from` and `to` are sent, and they
      overwrite the stored object, whatever it is by then. */
  function Changed<T(==)>(stored: T, from: T, to: T): T {
    if from == to then stored else to
  }

  function MergeStatus(stored: Peer, from: Peer, to: Peer): Peer {
    stored.(phase := Changed(stored.phase, from.phase, to.phase),
            activeNet := Changed(stored.activeNet, from.activeNet, to.activeNet),
            address := Changed(stored.address, from.address, to.address))
  }

  function MergeLabels(stored: Labels, from: Labels, to: Labels): Labels {
    (stored - (from.Keys - to.Keys)) + map k | k in to && (k !in from || from[k] != to[k]) :: to[k]
  }

  function MergeMeta(stored: Peer, from: Peer, to: Peer): Peer {
    stored.(labels := MergeLabels(stored.labels, from.labels, to.labels),
            hasKeys := Changed(stored.hasKeys, from.hasKeys, to.hasKeys))
  }

  /** A patch computed from an up-to-date copy stores exactly what was computed. */
  lemma FreshMerge(stored: Peer, to: Peer)
    ensures MergeLabels(stored.labels, stored.labels, to.labels) == to.labels
    ensures to == stored.(labels := to.labels) ==> MergeMeta(stored, stored, to) == to
    ensures to == stored.(phase := to.phase, activeNet := to.activeNet, address := to.address) ==>
      MergeStatus(stored, stored, to) == to
  {
    assert MergeLabels(stored.labels, stored.labels, to.labels) == to.labels;
  }

  /** A merge patch sends what differs and nothing else: a field or label that the copy and the target agree on
      stays as it is stored, and one they differ on becomes the target's. */
  lemma MergeMeaning(stored: Peer, from: Peer, to: Peer, l: string)
    ensures var s := MergeStatus(stored, from, to);
      && s.phase == (if from.phase == to.phase then stored.phase else to.phase)
      && s.activeNet == (if from.activeNet == to.activeNet then stored.activeNet else to.activeNet)
      && s.address == (if from.address == to.address then stored.address else to.address)
      && s.labels == stored.labels && s.specNet == stored.specNet
    ensures var m := MergeMeta(stored, from, to);
      && (from.labels == to.labels ==> m.labels == stored.labels)
      && ((l in from.labels <==> l in to.labels) && (l in to.labels ==> from.labels[l] == to.labels[l]) ==>
            (l in m.labels <==> l in stored.labels) && (l in m.labels ==> m.labels[l] == stored.labels[l]))
      && (l in from.labels && l !in to.labels ==> l !in m.labels)
      && (l in to.labels && (l !in from.labels || from.labels[l] != to.labels[l]) ==>
            l in m.labels && m.labels[l] == to.labels[l])
      && m.phase == stored.phase && m.address == stored.address && m.activeNet == stored.activeNet
  {
  }
}
