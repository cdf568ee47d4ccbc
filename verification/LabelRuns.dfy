/** Network labels over whole runs, whatever versions of a peer the reconciles start from: the exact condition
    on every step under which no peer ever carries two of them, which reconciles from the stored version meet. */
module LabelRuns {
  import opened Prelude
  import opened Ipv4
  import opened KeyNames
  import opened Ipam
  import opened Peers
  import opened ControlPlane
  import Interleaved

  predicate IsNetworkLabel(l: string) { HasPrefix(l, NETWORK_LABEL_PREFIX) }

  ghost predicate AtMostOne(labels: Labels) {
    forall a, b | a in labels && b in labels && IsNetworkLabel(a) && IsNetworkLabel(b) :: a == b
  }

  ghost predicate SameNetworkLabels(x: Labels, y: Labels) {
    forall l | IsNetworkLabel(l) :: (l in x <==> l in y) && (l in x ==> x[l] == y[l])
  }

  ghost predicate AllOne(peers: map<Key, Peer>) {
    forall k | k in peers :: AtMostOne(peers[k].labels)
  }

  /** A label patch fits the stored labels when its copy shows every other network label that is stored, or
      when the copy has the label already and the stored peer has lost it. */
  ghost predicate LabelFits(digest: Digest, stored: Labels, copy: Peer)
    requires copy.specNet.Some?
  {
    var key := NetworkLabelKey(digest, copy.specNet.value);
    || (key in copy.labels && copy.labels[key] == "true" && key !in stored)
    || (forall l | l in stored && IsNetworkLabel(l) && l != key :: l in copy.labels)
  }

  ghost predicate Fits(c: Config, s: State, e: Event) {
    e.Label? && e.patch == Applied && InFlight(s, e.k) && s.work[e.k].Labelling? && s.work[e.k].copy.specNet.Some?
      && Labelled(c.digest, s.work[e.k].copy) != s.work[e.k].copy
    ==> LabelFits(c.digest, s.peers[e.k].labels, s.work[e.k].copy)
  }

  // ---------------------------------------------------------------- the patch

  lemma LabelledKeys(digest: Digest, copy: Peer)
    requires copy.specNet.Some?
    ensures var key := NetworkLabelKey(digest, copy.specNet.value);
      IsNetworkLabel(key) && forall l | IsNetworkLabel(l) :: l in Labelled(digest, copy).labels <==> l == key
  {
    hide Labelled, NetworkLabelKey;
    var to := Labelled(digest, copy).labels;
    assert forall l | IsNetworkLabel(l) :: l in to <==> l in NetworkLabels(to);
  }

  lemma UnlabelledKeys(copy: Peer)
    ensures forall l | IsNetworkLabel(l) :: l !in Unlabelled(copy).labels
  {
    hide Unlabelled;
    var to := Unlabelled(copy).labels;
    assert forall l | IsNetworkLabel(l) :: l in to <==> l in NetworkLabels(to);
  }

  lemma LabelledValues(digest: Digest, copy: Peer)
    requires copy.specNet.Some?
    ensures var key, to := NetworkLabelKey(digest, copy.specNet.value), Labelled(digest, copy).labels;
      IsNetworkLabel(key) && key in to && to[key] == "true" && forall l | IsNetworkLabel(l) :: l in to <==> l == key
  {
    LabelledKeys(digest, copy);
    hide NetworkLabelKey, NetworkLabels, IsNetworkLabel;
  }

  /** What is left of the network labels after a merge towards one of them. */
  lemma MergedLabels(stored: Labels, from: Labels, to: Labels, key: string, l: string)
    requires IsNetworkLabel(key) && key in to && to[key] == "true"
    requires forall m | IsNetworkLabel(m) :: m in to <==> m == key
    requires IsNetworkLabel(l)
    ensures l in MergeLabels(stored, from, to) <==>
      if l == key then l in stored || key !in from || from[key] != "true" else l in stored && l !in from
  {
    hide IsNetworkLabel;
  }

  lemma PatchFitsIff(stored: Labels, from: Labels, to: Labels, key: string)
    requires IsNetworkLabel(key) && key in to && to[key] == "true"
    requires forall m | IsNetworkLabel(m) :: m in to <==> m == key
    requires AtMostOne(stored)
    ensures AtMostOne(MergeLabels(stored, from, to)) <==>
      || (key in from && from[key] == "true" && key !in stored)
      || (forall l | l in stored && IsNetworkLabel(l) && l != key :: l in from)
  {
    hide IsNetworkLabel, MergeLabels;
    var after := MergeLabels(stored, from, to);
    forall l | IsNetworkLabel(l)
      ensures l in after <==>
        if l == key then l in stored || key !in from || from[key] != "true" else l in stored && l !in from
    {
      MergedLabels(stored, from, to, key, l);
    }
  }

  /** A label patch leaves at most one network label exactly when it fits. */
  lemma LabelPatchIff(digest: Digest, stored: Labels, copy: Peer)
    requires copy.specNet.Some? && AtMostOne(stored)
    ensures AtMostOne(MergeLabels(stored, copy.labels, Labelled(digest, copy).labels)) <==>
      LabelFits(digest, stored, copy)
  {
    hide Labelled, NetworkLabelKey, MergeLabels, AtMostOne, IsNetworkLabel;
    LabelledValues(digest, copy);
    PatchFitsIff(stored, copy.labels, Labelled(digest, copy).labels, NetworkLabelKey(digest, copy.specNet.value));
  }

  lemma UnlabelFits(stored: Labels, copy: Peer)
    requires AtMostOne(stored)
    ensures AtMostOne(MergeLabels(stored, copy.labels, Unlabelled(copy).labels))
  {
    UnlabelledKeys(copy);
    hide Unlabelled, IsNetworkLabel;
  }

  // ---------------------------------------------------------------- one step

  /** Patches other than those of labels keep the labels and the Spec of their copy, and take nothing away. */
  predicate KeepsLabels(w: Work) {
    w.Patching? ==>
      && w.from.labels == w.to.labels && w.from.specNet == w.to.specNet
      && (w.from.hasKeys ==> w.to.hasKeys) && (w.from.finalizer ==> w.to.finalizer)
  }

  predicate WorkKeepsLabels(work: map<Key, Work>) { forall k | k in work :: KeepsLabels(work[k]) }

  lemma OneStored(peers: map<Key, Peer>, k: Key, p: Peer)
    requires AllOne(peers)
    ensures AllOne(peers[k := p]) <==> AtMostOne(p.labels)
  {
    hide AtMostOne;
    assert peers[k := p][k] == p && k in peers[k := p];
  }

  lemma SameLabelsOne(s: State, k: Key, p: Peer)
    requires AllOne(s.peers) && k in s.peers && p.labels == s.peers[k].labels
    ensures AllOne(s.peers[k := p])
  {
    hide AtMostOne;
  }

  lemma StoringPeers(s: State, k: Key, p: Peer, w: Work)
    ensures Doing(Storing(s, k, p), k, w).peers == s.peers[k := p] && Doing(s, k, w).peers == s.peers
    ensures Storing(s, k, p).peers == s.peers[k := p]
  {
  }

  lemma LabelStepIff(c: Config, s: State, k: Key, copy: Peer, base: Addr, patch: Patch)
    requires AllOne(s.peers) && k in s.peers && copy.specNet.Some?
    ensures AllOne(DoLabel(c, s, k, copy, base, patch).peers) <==>
      (patch == Applied && Labelled(c.digest, copy) != copy ==> LabelFits(c.digest, s.peers[k].labels, copy))
  {
    var to := Labelled(c.digest, copy);
    var q := MergeMeta(s.peers[k], copy, to);
    assert q.labels == MergeLabels(s.peers[k].labels, copy.labels, to.labels);
    assert AtMostOne(s.peers[k].labels) by { hide AtMostOne; }
    LabelPatchIff(c.digest, s.peers[k].labels, copy);
    OneStored(s.peers, k, q);
    StoringPeers(s, k, q, Idle);
    StoringPeers(s, k, q, Listing(copy, base));
    StoringPeers(s, k, q, Failing(copy));
    hide Doing, Storing, Labelled, MergeMeta, AtMostOne, LabelFits, NetworkLabels, AllOne;
  }

  lemma UnlabelStepOne(s: State, k: Key, copy: Peer, patch: Patch)
    requires AllOne(s.peers) && k in s.peers
    ensures AllOne(DoUnlabel(s, k, copy, patch).peers)
  {
    var to := Unlabelled(copy);
    var q := MergeMeta(s.peers[k], copy, to);
    assert q.labels == MergeLabels(s.peers[k].labels, copy.labels, to.labels);
    assert AtMostOne(s.peers[k].labels) by { hide AtMostOne; }
    UnlabelFits(s.peers[k].labels, copy);
    OneStored(s.peers, k, q);
    StoringPeers(s, k, q, Clearing(to));
    StoringPeers(s, k, q, Clearing(copy));
    StoringPeers(s, k, q, Failing(copy));
    hide Doing, Storing, Unlabelled, MergeMeta, AtMostOne, NetworkLabels, AllOne;
  }

  lemma WriteStepOne(s: State, k: Key, from: Peer, to: Peer, patch: Patch)
    requires AllOne(s.peers) && k in s.peers && from.labels == to.labels
    ensures AllOne(DoWrite(s, k, from, to, patch).peers)
  {
    var q := MergeMeta(MergeStatus(s.peers[k], from, to), from, to);
    WriteKeepsLabels(s.peers[k], from, to);
    SameLabelsOne(s, k, q);
    StoringPeers(s, k, q, Idle);
    StoringPeers(s, k, to, Idle);
    StoringPeers(s, k, to, Patching(from, from.(phase := Pending)));
    if from == s.peers[k] {
      SameLabelsOne(s, k, to);
    }
    hide Doing, Storing, MergeMeta, MergeStatus, AllOne;
  }

  lemma StatusStepOne(s: State, k: Key, copy: Peer, a: Addr, patch: Patch)
    requires AllOne(s.peers) && k in s.peers
    ensures AllOne(DoRecord(s, k, copy, a, patch).peers) && AllOne(DoClear(s, k, copy, patch).peers)
  {
    var q, r := MergeStatus(s.peers[k], copy, Joined(copy, a)), MergeStatus(s.peers[k], copy, Cleared(copy));
    SameLabelsOne(s, k, q);
    SameLabelsOne(s, k, r);
    StoringPeers(s, k, q, Idle);
    StoringPeers(s, k, r, Idle);
    hide Doing, Storing, MergeStatus, AllOne;
  }

  lemma EditIsSame(s: State, k: Key, labels: Labels)
    requires CanEdit(s, k, labels)
    ensures SameNetworkLabels(s.peers[k].labels, labels)
  {
    hide HasPrefix;
  }

  lemma EditedOne(stored: Labels, edited: Labels)
    requires SameNetworkLabels(stored, edited) && AtMostOne(stored)
    ensures AtMostOne(edited)
  {
    hide HasPrefix;
  }

  lemma WriteKeepsLabels(p: Peer, from: Peer, to: Peer)
    requires from.labels == to.labels
    ensures MergeMeta(MergeStatus(p, from, to), from, to).labels == p.labels
  {
  }

  lemma EditStepOne(s: State, k: Key, specNet: Option<string>, labels: Labels)
    requires AllOne(s.peers) && CanEdit(s, k, labels)
    ensures AllOne(DoEdit(s, k, specNet, labels).peers)
  {
    hide HasPrefix;
    EditIsSame(s, k, labels);
    var p := s.peers[k].(specNet := specNet, labels := labels);
    assert AtMostOne(labels) by { EditedOne(s.peers[k].labels, labels); }
    OneStored(s.peers, k, p);
    StoringPeers(s, k, p, Idle);
    hide AtMostOne, Storing;
  }

  lemma CreateStepOne(s: State, k: Key, specNet: Option<string>, labels: Labels)
    requires AllOne(s.peers) && NetworkLabels(labels) == {}
    ensures AllOne(DoCreate(s, k, specNet, labels).peers)
  {
    var p := Peers.NewPeer(specNet, labels);
    assert AtMostOne(labels) by {
      assert forall l | l in labels && IsNetworkLabel(l) :: l in NetworkLabels(labels);
      hide IsNetworkLabel;
    }
    OneStored(s.peers, k, p);
    StoringPeers(s, k, p, Idle);
    hide AtMostOne, Storing, Doing, HasPrefix, NetworkLabels;
  }

  lemma DoingPeers(s: State, k: Key, w: Work, a: int)
    ensures Doing(s, k, w).peers == s.peers
    ensures 0 <= a < TWO32 ==> Doing(Holding(s, k, a), k, w).peers == s.peers
  {
    hide IpName;
  }

  lemma TryPeers(c: Config, s: State, k: Key, copy: Peer, base: Addr, next: int, used: set<string>, reachable: bool)
    requires c.Valid()
    ensures DoTry(c, s, k, copy, base, next, used, reachable).peers == s.peers
  {
    hide IpName, HostHigh, Doing, Holding;
    DoingPeers(s, k, Failing(copy), next);
    DoingPeers(s, k, Scanning(copy, base, next + 1, used), next);
    if 0 <= next < TWO32 {
      DoingPeers(s, k, Recording(copy, next), next);
    }
  }

  lemma ListPeers(s: State, k: Key, copy: Peer, base: Addr, listed: seq<Listed>)
    ensures DoList(s, k, copy, base, listed).peers == s.peers
  {
    hide OwnListed, ListedNames, HostLow, Doing;
    DoingPeers(s, k, Scanning(copy, base, HostLow(base), ListedNames(listed)), -1);
    match OwnListed(listed, k.name)
    case Some(a) => DoingPeers(s, k, Recording(copy, a), -1);
    case None =>
  }

  lemma ReleasePeers(s: State, k: Key, copy: Peer, reachable: bool)
    ensures DoRelease(s, k, copy, reachable).peers == s.peers
  {
    hide IpName, Doing;
    DoingPeers(s, k, Idle, -1);
    DoingPeers(s, k, Unlabelling(copy), -1);
    if copy.address.Some? {
      DoingPeers(DoCollect(s, EndpointKey(k.ns, IpName(copy.address.value))), k, Unlabelling(copy), -1);
    }
  }

  lemma NetworkPeers(s: State, n: Key, base: Addr, patch: Patch)
    ensures DoClaim(s, n, base).peers == s.peers
    ensures n in s.claims ==> DoPublish(s, n, patch).peers == s.peers
  {
    hide SubnetName, Published;
  }

  lemma ElsewhereOne(c: Config, s: State, e: Event)
    requires c.Valid() && Enabled(c, s, e)
    requires e.Collect? || e.ClaimSubnet? || e.PublishCidr? || e.Begin? || e.List? || e.Try? || e.Release? || e.Abort?
    ensures Apply(c, s, e).peers == s.peers
  {
    hide DoTry, DoList, DoRelease, DoClaim, DoPublish, CanClaim, CanBegin, Start, Doing;
    match e
    case ClaimSubnet(n, names, base) => NetworkPeers(s, n, base, Applied);
    case PublishCidr(n, patch) => NetworkPeers(s, n, 0, patch);
    case Begin(k, copy, read) => DoingPeers(s, k, Start(copy, read), 0);
    case List(k, listed) => ListPeers(s, k, s.work[k].copy, s.work[k].base, listed);
    case Try(k, reachable) =>
      TryPeers(c, s, k, s.work[k].copy, s.work[k].base, s.work[k].next, s.work[k].used, reachable);
    case Release(k, reachable) => ReleasePeers(s, k, s.work[k].copy, reachable);
    case Abort(k) => DoingPeers(s, k, Idle, 0);
    case _ =>
  }

  /** No peer has two network labels after a step exactly when the step fits. */
  lemma StepIff(c: Config, s: State, e: Event)
    requires c.Valid() && Enabled(c, s, e) && AllOne(s.peers) && WorkKeepsLabels(s.work)
    ensures AllOne(Apply(c, s, e).peers) <==> Fits(c, s, e)
  {
    hide AllOne, LabelFits, DoTry, DoList, DoLabel, DoBegin, DoWrite, DoRecord, DoRelease, DoUnlabel, DoClear;
    hide DoCollect, DoCreate, DoEdit, DoClaim, DoPublish, CanClaim, CanBegin, CanEdit, NetworkLabels, Labelled;
    match e
    case Create(k, specNet, labels) => CreateStepOne(s, k, specNet, labels);
    case Edit(k, specNet, labels) => EditStepOne(s, k, specNet, labels);
    case Write(k, patch) => WriteStepOne(s, k, s.work[k].from, s.work[k].to, patch);
    case Label(k, patch) => LabelStepIff(c, s, k, s.work[k].copy, s.work[k].base, patch);
    case Record(k, patch) => StatusStepOne(s, k, s.work[k].copy, s.work[k].claimed, patch);
    case Unlabel(k, patch) => UnlabelStepOne(s, k, s.work[k].copy, patch);
    case Clear(k, patch) => StatusStepOne(s, k, s.work[k].copy, 0, patch);
    case _ => ElsewhereOne(c, s, e);
  }

  // ---------------------------------------------------------------- whole runs

  lemma MovesKeepLabels(s: State, k: Key, p: Peer, w: Work, a: int)
    requires WorkKeepsLabels(s.work) && KeepsLabels(w)
    ensures WorkKeepsLabels(Doing(s, k, w).work) && WorkKeepsLabels(Doing(Storing(s, k, p), k, w).work)
    ensures 0 <= a < TWO32 ==> WorkKeepsLabels(Doing(Holding(s, k, a), k, w).work)
  {
    hide KeepsLabels, IpName;
  }

  lemma WriteWork(s: State, k: Key, from: Peer, to: Peer, patch: Patch)
    requires WorkKeepsLabels(s.work) && k in s.peers
    ensures WorkKeepsLabels(DoWrite(s, k, from, to, patch).work)
  {
    hide WorkKeepsLabels, Doing, Storing, MergeMeta, MergeStatus;
    MovesKeepLabels(s, k, to, Idle, -1);
    MovesKeepLabels(s, k, MergeMeta(MergeStatus(s.peers[k], from, to), from, to), Idle, -1);
    MovesKeepLabels(s, k, to, Patching(from, from.(phase := Pending)), -1);
  }

  lemma LabelWork(c: Config, s: State, k: Key, copy: Peer, base: Addr, patch: Patch)
    requires WorkKeepsLabels(s.work) && k in s.peers && copy.specNet.Some?
    ensures WorkKeepsLabels(DoLabel(c, s, k, copy, base, patch).work)
  {
    hide WorkKeepsLabels, Doing, Storing, MergeMeta, Labelled, NetworkLabels, SameOwnLabels;
    MovesKeepLabels(s, k, copy, Listing(copy, base), -1);
    MovesKeepLabels(s, k, copy, Failing(copy), -1);
    MovesKeepLabels(s, k, MergeMeta(s.peers[k], copy, Labelled(c.digest, copy)), Idle, -1);
  }

  lemma UnlabelWork(s: State, k: Key, copy: Peer, patch: Patch)
    requires WorkKeepsLabels(s.work) && k in s.peers
    ensures WorkKeepsLabels(DoUnlabel(s, k, copy, patch).work)
  {
    hide WorkKeepsLabels, Doing, Storing, MergeMeta, Unlabelled, NetworkLabels, SameOwnLabels;
    MovesKeepLabels(s, k, copy, Failing(copy), -1);
    MovesKeepLabels(s, k, copy, Clearing(copy), -1);
    MovesKeepLabels(s, k, MergeMeta(s.peers[k], copy, Unlabelled(copy)), Clearing(Unlabelled(copy)), -1);
  }

  lemma StatusWork(s: State, k: Key, copy: Peer, a: Addr, patch: Patch)
    requires WorkKeepsLabels(s.work) && k in s.peers
    ensures WorkKeepsLabels(DoRecord(s, k, copy, a, patch).work) && WorkKeepsLabels(DoClear(s, k, copy, patch).work)
  {
    hide WorkKeepsLabels, Doing, Storing, MergeStatus, Joined, Cleared;
    MovesKeepLabels(s, k, copy, Idle, -1);
    MovesKeepLabels(s, k, MergeStatus(s.peers[k], copy, Joined(copy, a)), Idle, -1);
    MovesKeepLabels(s, k, MergeStatus(s.peers[k], copy, Cleared(copy)), Idle, -1);
  }

  lemma ClaimWork(c: Config, s: State, k: Key, copy: Peer, base: Addr, next: int, used: set<string>, reachable: bool,
                  listed: seq<Listed>)
    requires c.Valid() && WorkKeepsLabels(s.work)
    ensures WorkKeepsLabels(DoTry(c, s, k, copy, base, next, used, reachable).work)
    ensures WorkKeepsLabels(DoList(s, k, copy, base, listed).work)
  {
    hide WorkKeepsLabels, Doing, Holding, IpName, HostHigh, HostLow, OwnListed, ListedNames;
    MovesKeepLabels(s, k, copy, Failing(copy), -1);
    MovesKeepLabels(s, k, copy, Scanning(copy, base, next + 1, used), -1);
    MovesKeepLabels(s, k, copy, Scanning(copy, base, HostLow(base), ListedNames(listed)), -1);
    if 0 <= next < TWO32 {
      MovesKeepLabels(s, k, copy, Recording(copy, next), next);
    }
    match OwnListed(listed, k.name)
    case Some(a) => MovesKeepLabels(s, k, copy, Recording(copy, a), -1);
    case None =>
  }

  lemma ReleaseWork(s: State, k: Key, copy: Peer, reachable: bool)
    requires WorkKeepsLabels(s.work)
    ensures WorkKeepsLabels(DoRelease(s, k, copy, reachable).work)
  {
    hide WorkKeepsLabels, Doing, IpName;
    MovesKeepLabels(s, k, copy, Idle, -1);
    MovesKeepLabels(s, k, copy, Unlabelling(copy), -1);
    if copy.address.Some? {
      MovesKeepLabels(DoCollect(s, EndpointKey(k.ns, IpName(copy.address.value))), k, copy, Unlabelling(copy), -1);
    }
  }

  lemma BeginWork(s: State, k: Key, copy: Peer, read: NetworkRead)
    requires WorkKeepsLabels(s.work)
    ensures WorkKeepsLabels(DoBegin(s, k, copy, read).work)
  {
    assert KeepsLabels(Start(copy, read));
    hide WorkKeepsLabels, Start, KeepsLabels, Doing;
    MovesKeepLabels(s, k, copy, Start(copy, read), -1);
  }

  lemma NetworkWork(s: State, n: Key, base: Addr, patch: Patch)
    ensures DoClaim(s, n, base).work == s.work
    ensures n in s.claims ==> DoPublish(s, n, patch).work == s.work
  {
    hide SubnetName, Published;
  }

  lemma StepKeepsWork(c: Config, s: State, e: Event)
    requires c.Valid() && Enabled(c, s, e) && WorkKeepsLabels(s.work)
    ensures WorkKeepsLabels(Apply(c, s, e).work)
  {
    hide WorkKeepsLabels, DoTry, DoList, DoLabel, DoBegin, DoWrite, DoRecord, DoRelease, DoUnlabel, DoClear;
    hide DoClaim, DoPublish, CanClaim, CanBegin, CanEdit, NetworkLabels, Doing;
    match e
    case Create(k, specNet, labels) => MovesKeepLabels(s, k, Peers.NewPeer(specNet, labels), Idle, -1);
    case ClaimSubnet(n, names, base) => NetworkWork(s, n, base, Applied);
    case PublishCidr(n, patch) => NetworkWork(s, n, 0, patch);
    case Begin(k, copy, read) => BeginWork(s, k, copy, read);
    case Write(k, patch) => WriteWork(s, k, s.work[k].from, s.work[k].to, patch);
    case Label(k, patch) => LabelWork(c, s, k, s.work[k].copy, s.work[k].base, patch);
    case List(k, listed) => ClaimWork(c, s, k, s.work[k].copy, s.work[k].base, 0, {}, true, listed);
    case Try(k, reachable) =>
      ClaimWork(c, s, k, s.work[k].copy, s.work[k].base, s.work[k].next, s.work[k].used, reachable, []);
    case Record(k, patch) => StatusWork(s, k, s.work[k].copy, s.work[k].claimed, patch);
    case Release(k, reachable) => ReleaseWork(s, k, s.work[k].copy, reachable);
    case Unlabel(k, patch) => UnlabelWork(s, k, s.work[k].copy, patch);
    case Clear(k, patch) => StatusWork(s, k, s.work[k].copy, 0, patch);
    case Abort(k) => MovesKeepLabels(s, k, s.peers[k], Idle, -1);
    case _ =>
  }

  lemma {:induction false} RunKeepsWork(c: Config, states: seq<State>, events: seq<Event>, i: nat)
    requires c.Valid() && IsRun(c, states, events) && i < |states|
    ensures WorkKeepsLabels(states[i].work)
  {
    hide Apply, Enabled;
    if i > 0 {
      RunKeepsWork(c, states, events, i - 1);
      assert Next(c, states[i - 1], events[i - 1], states[i - 1 + 1]);
      StepKeepsWork(c, states[i - 1], events[i - 1]);
    }
  }

  /** Over the first n steps of any run, with any reads, no peer ever has two network labels exactly when every
      label patch that is applied fits. */
  lemma {:induction false} OneLabelIffFits(c: Config, states: seq<State>, events: seq<Event>, n: nat)
    requires c.Valid() && IsRun(c, states, events) && n <= |events|
    ensures (forall i | 0 <= i <= n :: AllOne(states[i].peers)) <==>
      (forall j | 0 <= j < n :: Fits(c, states[j], events[j]))
  {
    hide Apply, Enabled, Fits;
    if n == 0 {
      assert AllOne(states[0].peers);
    } else {
      OneLabelIffFits(c, states, events, n - 1);
      if forall i | 0 <= i <= n - 1 :: AllOne(states[i].peers) {
        assert Next(c, states[n - 1], events[n - 1], states[n - 1 + 1]);
        RunKeepsWork(c, states, events, n - 1);
        StepIff(c, states[n - 1], events[n - 1]);
      }
    }
  }

  // ---------------------------------------------------------------- reconciles from the stored peer

  /** Reconciles start from the stored peer. */
  predicate FreshRead(s: State, e: Event) {
    e.Begin? ==> e.k in s.peers && e.copy == s.peers[e.k]
  }

  /** A reconcile that is about to label has the stored network labels in its copy. */
  ghost predicate Synced(s: State, k: Key) {
    k in s.peers && k in s.work && s.work[k].Labelling? ==>
      SameNetworkLabels(s.work[k].copy.labels, s.peers[k].labels)
  }

  lemma OwnSynced(c: Config, s: State, e: Event, k: Key)
    requires c.Valid() && Enabled(c, s, e) && Interleaved.About(e, k) && FreshRead(s, e) && Synced(s, k)
    ensures Synced(Apply(c, s, e), k)
  {
    if e.Begin? {
      hide Decide, IsNetworkLabel;
    } else if e.Edit? {
      EditedSync(s, k, e.labels);
      hide SameNetworkLabels, CanEdit;
    } else {
      NotLabelling(c, s, e, k);
      hide Apply;
    }
  }

  lemma EditedSync(s: State, k: Key, labels: Labels)
    requires CanEdit(s, k, labels) && Synced(s, k)
    ensures k in s.work && s.work[k].Labelling? ==> SameNetworkLabels(s.work[k].copy.labels, labels)
  {
    EditIsSame(s, k, labels);
    hide HasPrefix, CanEdit;
  }

  predicate Elsewhere(t: State, k: Key) { k in t.work && !t.work[k].Labelling? }

  lemma DoesElse(k: Key)
    ensures forall s, w: Work | !w.Labelling? :: Elsewhere(Doing(s, k, w), k)
  {
  }

  lemma PatchesElse(c: Config, s: State, k: Key, copy: Peer, to: Peer, a: Addr, patch: Patch)
    requires k in s.peers
    ensures Elsewhere(DoWrite(s, k, copy, to, patch), k) && Elsewhere(DoUnlabel(s, k, copy, patch), k)
    ensures copy.specNet.Some? ==> Elsewhere(DoLabel(c, s, k, copy, a, patch), k)
    ensures Elsewhere(DoRecord(s, k, copy, a, patch), k) && Elsewhere(DoClear(s, k, copy, patch), k)
  {
    DoesElse(k);
    hide Elsewhere, Doing, Storing, MergeMeta, MergeStatus, Labelled, Unlabelled, NetworkLabels;
  }

  lemma CallsElse(c: Config, s: State, k: Key, copy: Peer, base: Addr, next: int, used: set<string>,
                  listed: seq<Listed>, reachable: bool)
    requires c.Valid()
    ensures Elsewhere(DoList(s, k, copy, base, listed), k) && Elsewhere(DoRelease(s, k, copy, reachable), k)
    ensures Elsewhere(DoTry(c, s, k, copy, base, next, used, reachable), k)
  {
    DoesElse(k);
    hide Elsewhere, Doing, Holding, DoCollect, OwnListed, ListedNames, IpName, HostHigh, HostLow;
  }

  /** No other call ends with a reconcile about to label. */
  lemma NotLabelling(c: Config, s: State, e: Event, k: Key)
    requires c.Valid() && Enabled(c, s, e) && Interleaved.About(e, k) && !e.Begin? && !e.Edit?
    ensures Elsewhere(Apply(c, s, e), k)
  {
    DoesElse(k);
    hide Elsewhere, Doing, Storing, CanCreate, DoWrite, DoLabel, DoList, DoTry, DoRecord, DoRelease, DoUnlabel, DoClear;
    match e
    case Write(_, patch) => PatchesElse(c, s, k, s.work[k].from, s.work[k].to, 0, patch);
    case Label(_, patch) => PatchesElse(c, s, k, s.work[k].copy, s.work[k].copy, s.work[k].base, patch);
    case Record(_, patch) => PatchesElse(c, s, k, s.work[k].copy, s.work[k].copy, s.work[k].claimed, patch);
    case Unlabel(_, patch) => PatchesElse(c, s, k, s.work[k].copy, s.work[k].copy, 0, patch);
    case Clear(_, patch) => PatchesElse(c, s, k, s.work[k].copy, s.work[k].copy, 0, patch);
    case List(_, listed) => CallsElse(c, s, k, s.work[k].copy, s.work[k].base, 0, {}, listed, true);
    case Release(_, reachable) => CallsElse(c, s, k, s.work[k].copy, 0, 0, {}, [], reachable);
    case Try(_, reachable) =>
      CallsElse(c, s, k, s.work[k].copy, s.work[k].base, s.work[k].next, s.work[k].used, [], reachable);
    case _ =>
  }

  lemma {:induction false} RunSynced(c: Config, states: seq<State>, events: seq<Event>, i: nat, k: Key)
    requires c.Valid() && IsRun(c, states, events) && i < |states|
    requires forall j | 0 <= j < i :: FreshRead(states[j], events[j])
    ensures Synced(states[i], k)
  {
    hide Apply, Enabled, FreshRead, Interleaved.About;
    if i > 0 {
      RunSynced(c, states, events, i - 1, k);
      assert Next(c, states[i - 1], events[i - 1], states[i - 1 + 1]);
      if Interleaved.About(events[i - 1], k) {
        OwnSynced(c, states[i - 1], events[i - 1], k);
      } else {
        Interleaved.OtherEvents(c, states[i - 1], events[i - 1], k);
      }
    }
  }

  /** A patch from a copy with the stored network labels fits. */
  lemma SyncedFits(c: Config, s: State, e: Event)
    requires e.Label? ==> Synced(s, e.k)
    ensures Fits(c, s, e)
  {
    hide IsNetworkLabel, NetworkLabelKey, Labelled;
  }

  /** In every run whose reconciles read the stored peer, with any lost patches and failures, a peer
      carries at most one network label. */
  lemma AtMostOneNetworkLabel(c: Config, states: seq<State>, events: seq<Event>, i: nat, k: Key)
    requires c.Valid() && IsRun(c, states, events) && i < |states| && k in states[i].peers
    requires forall j | 0 <= j < i :: FreshRead(states[j], events[j])
    ensures forall a, b |
      a in NetworkLabels(states[i].peers[k].labels) && b in NetworkLabels(states[i].peers[k].labels) :: a == b
  {
    forall j | 0 <= j < i ensures Fits(c, states[j], events[j]) {
      if events[j].Label? {
        RunSynced(c, states, events, j, events[j].k);
      }
      SyncedFits(c, states[j], events[j]);
    }
    hide IsRun, FreshRead, HasPrefix, Fits;
    OneLabelIffFits(c, states, events, i);
    assert AllOne(states[i].peers);
  }
}
