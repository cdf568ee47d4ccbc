/** Who owns which endpoint, in every interleaving of peer reconciles. A peer owns at most one endpoint as
    long as no list hides it from its owner. Two peers of a namespace that are not in the middle of leaving
    never show the same allocated address as long as six clauses hold, whatever else is stale, lost or cut
    off. That none of the clauses can be dropped is shown in OwnershipExact. */
module Ownership {
  import opened Prelude
  import opened Ipv4
  import opened KeyNames
  import opened Ipam
  import opened Peers
  import opened ControlPlane
  import StatusShape

  function AddressKey(k: Key, a: Addr): EndpointKey { EndpointKey(k.ns, IpName(a)) }

  predicate Owns(endpoints: Endpoints, k: Key, key: EndpointKey) {
    key in endpoints && key.namespace == k.ns && endpoints[key].peerRef == k.name
  }

  ghost predicate OwnsNone(endpoints: Endpoints, k: Key) {
    forall key | key in endpoints :: !Owns(endpoints, k, key)
  }

  ghost predicate OwnsAtMostOne(endpoints: Endpoints, k: Key) {
    forall x, y | x in endpoints && y in endpoints :: Owns(endpoints, k, x) && Owns(endpoints, k, y) ==> x == y
  }

  // ================================================================ one endpoint per peer

  /** A list hides from a peer that it has an endpoint. */
  ghost predicate Hides(endpoints: Endpoints, k: Key, listed: seq<Listed>) {
    OwnListed(listed, k.name) == None && !OwnsNone(endpoints, k)
  }

  /** The only thing one endpoint per peer depends on. */
  ghost predicate NothingHidden(s: State, e: Event) {
    e.List? ==> !Hides(s.endpoints, e.k, e.listed)
  }

  ghost predicate ScansOk(endpoints: Endpoints, work: map<Key, Work>) {
    forall k | k in work && work[k].Scanning? :: OwnsNone(endpoints, k)
  }

  ghost predicate AllOwnOne(endpoints: Endpoints) {
    forall k :: OwnsAtMostOne(endpoints, k)
  }

  ghost predicate OneInv(s: State) {
    AllOwnOne(s.endpoints) && ScansOk(s.endpoints, s.work)
  }

  lemma OneMoveOn(s: State, k: Key, w: Work)
    requires OneInv(s) && (w.Scanning? ==> OwnsNone(s.endpoints, k))
    ensures OneInv(Doing(s, k, w))
  {
    hide OwnsNone, AllOwnOne;
  }

  lemma OneStores(s: State, k: Key, p: Peer)
    requires OneInv(s)
    ensures OneInv(Storing(s, k, p))
  {
    hide AllOwnOne, ScansOk;
  }

  lemma OneStoreAndMoveOn(s: State, k: Key, p: Peer, w: Work)
    requires OneInv(s) && !w.Scanning?
    ensures OneInv(Doing(Storing(s, k, p), k, w))
  {
    hide OneInv, Doing, Storing;
    OneStores(s, k, p);
    OneMoveOn(Storing(s, k, p), k, w);
  }

  lemma OneDrops(s: State, key: EndpointKey)
    requires OneInv(s)
    ensures OneInv(DoCollect(s, key))
  {
    var after := s.endpoints - {key};
    forall k ensures OwnsAtMostOne(after, k) {
      assert OwnsAtMostOne(s.endpoints, k);
    }
    forall k | k in s.work && s.work[k].Scanning? ensures OwnsNone(after, k) {
      assert OwnsNone(s.endpoints, k);
    }
  }

  lemma OneCreates(s: State, k: Key, copy: Peer, a: Addr)
    requires OneInv(s) && OwnsNone(s.endpoints, k) && AddressKey(k, a) !in s.endpoints
    ensures OneInv(Doing(Holding(s, k, a), k, Recording(copy, a)))
  {
    hide IpName;
    var after := s.endpoints[AddressKey(k, a) := Endpoint(a, k.name)];
    forall j ensures OwnsAtMostOne(after, j) {
      assert OwnsAtMostOne(s.endpoints, j);
    }
    forall j | j in s.work && s.work[j].Scanning? && j != k ensures OwnsNone(after, j) {
      assert OwnsNone(s.endpoints, j);
    }
  }

  lemma OneTries(c: Config, s: State, k: Key, copy: Peer, base: Addr, next: int, used: set<string>, reachable: bool)
    requires c.Valid() && OneInv(s) && OwnsNone(s.endpoints, k)
    ensures OneInv(DoTry(c, s, k, copy, base, next, used, reachable))
  {
    hide OneInv, Doing, IpName, HostHigh, OwnsNone, Holding;
    OneMoveOn(s, k, Failing(copy));
    OneMoveOn(s, k, Scanning(copy, base, next + 1, used));
    if 0 <= next <= HostHigh(base, c.pool.subnetMask) && EndpointKey(k.ns, IpName(next)) !in s.endpoints {
      OneCreates(s, k, copy, next);
    }
  }

  lemma OneReleases(s: State, k: Key, copy: Peer, reachable: bool)
    requires OneInv(s)
    ensures OneInv(DoRelease(s, k, copy, reachable))
  {
    hide OneInv, Doing, IpName, DoCollect;
    OneMoveOn(s, k, Idle);
    OneMoveOn(s, k, Unlabelling(copy));
    if copy.address.Some? {
      OneDrops(s, EndpointKey(k.ns, IpName(copy.address.value)));
      OneMoveOn(DoCollect(s, EndpointKey(k.ns, IpName(copy.address.value))), k, Unlabelling(copy));
    }
  }

  lemma OneLists(s: State, k: Key, copy: Peer, base: Addr, listed: seq<Listed>)
    requires OneInv(s) && !Hides(s.endpoints, k, listed)
    ensures OneInv(DoList(s, k, copy, base, listed))
  {
    hide OneInv, Doing, OwnsNone, OwnListed, ListedNames, HostLow;
    match OwnListed(listed, k.name)
    case Some(a) => OneMoveOn(s, k, Recording(copy, a));
    case None => OneMoveOn(s, k, Scanning(copy, base, HostLow(base), ListedNames(listed)));
  }

  lemma OneWrites(s: State, k: Key, from: Peer, to: Peer, patch: Patch)
    requires OneInv(s) && k in s.peers
    ensures OneInv(DoWrite(s, k, from, to, patch))
  {
    hide OneInv, Doing, Storing, MergeMeta, MergeStatus;
    OneMoveOn(s, k, Idle);
    OneMoveOn(s, k, Patching(from, from.(phase := Pending)));
    OneStoreAndMoveOn(s, k, to, Idle);
    OneStoreAndMoveOn(s, k, MergeMeta(MergeStatus(s.peers[k], from, to), from, to), Idle);
  }

  lemma OneLabels(c: Config, s: State, k: Key, copy: Peer, base: Addr, patch: Patch)
    requires OneInv(s) && k in s.peers && copy.specNet.Some?
    ensures OneInv(DoLabel(c, s, k, copy, base, patch))
  {
    hide OneInv, Doing, Storing, Labelled, MergeMeta, NetworkLabels;
    OneMoveOn(s, k, Listing(copy, base));
    OneMoveOn(s, k, Failing(copy));
    OneStoreAndMoveOn(s, k, MergeMeta(s.peers[k], copy, Labelled(c.digest, copy)), Idle);
  }

  lemma OneUnlabels(s: State, k: Key, copy: Peer, patch: Patch)
    requires OneInv(s) && k in s.peers
    ensures OneInv(DoUnlabel(s, k, copy, patch))
  {
    hide OneInv, Doing, Storing, Unlabelled, MergeMeta, NetworkLabels;
    OneMoveOn(s, k, Clearing(copy));
    OneMoveOn(s, k, Failing(copy));
    OneStoreAndMoveOn(s, k, MergeMeta(s.peers[k], copy, Unlabelled(copy)), Clearing(Unlabelled(copy)));
  }

  lemma OneRecords(s: State, k: Key, copy: Peer, a: Addr, patch: Patch)
    requires OneInv(s) && k in s.peers
    ensures OneInv(DoRecord(s, k, copy, a, patch)) && OneInv(DoClear(s, k, copy, patch))
  {
    hide OneInv, Doing, Storing, MergeStatus, Joined, Cleared;
    OneMoveOn(s, k, Idle);
    OneStoreAndMoveOn(s, k, MergeStatus(s.peers[k], copy, Joined(copy, a)), Idle);
    OneStoreAndMoveOn(s, k, MergeStatus(s.peers[k], copy, Cleared(copy)), Idle);
  }

  lemma OneBegins(s: State, k: Key, copy: Peer, read: NetworkRead)
    requires OneInv(s)
    ensures OneInv(DoBegin(s, k, copy, read))
  {
    assert !Start(copy, read).Scanning?;
    hide OneInv, Doing, Start;
    OneMoveOn(s, k, Start(copy, read));
  }

  lemma OneNetworks(s: State, n: Key, base: Addr, patch: Patch)
    requires OneInv(s)
    ensures OneInv(DoClaim(s, n, base))
    ensures n in s.claims ==> OneInv(DoPublish(s, n, patch))
  {
    hide AllOwnOne, ScansOk, SubnetName;
  }

  lemma StepKeepsOne(c: Config, s: State, e: Event)
    requires c.Valid() && OneInv(s) && Enabled(c, s, e) && NothingHidden(s, e)
    ensures OneInv(Apply(c, s, e))
  {
    hide OneInv, DoTry, DoList, DoLabel, DoBegin, DoWrite, DoRecord, DoRelease, DoUnlabel, DoClear, DoCollect;
    hide DoClaim, DoPublish, CanClaim, CanBegin, CanEdit, Storing, Doing, Hides;
    match e
    case Create(k, specNet, labels) => OneStoreAndMoveOn(s, k, Peers.NewPeer(specNet, labels), Idle);
    case Edit(k, specNet, labels) =>
      assert k in s.peers by { EditKnown(s, k, labels); }
      OneStores(s, k, s.peers[k].(specNet := specNet, labels := labels));
    case Collect(key) => OneDrops(s, key);
    case ClaimSubnet(n, names, base) => OneNetworks(s, n, base, Applied);
    case PublishCidr(n, patch) => OneNetworks(s, n, 0, patch);
    case Begin(k, copy, read) => OneBegins(s, k, copy, read);
    case _ => WorkStepKeepsOne(c, s, e);
  }

  lemma EditKnown(s: State, k: Key, labels: Labels)
    requires CanEdit(s, k, labels)
    ensures k in s.peers
  {
    hide HasPrefix;
  }

  lemma WorkStepKeepsOne(c: Config, s: State, e: Event)
    requires c.Valid() && OneInv(s) && Enabled(c, s, e) && NothingHidden(s, e)
    requires !e.Create? && !e.Edit? && !e.Collect? && !e.ClaimSubnet? && !e.PublishCidr? && !e.Begin?
    ensures OneInv(Apply(c, s, e))
  {
    var w := s.work[e.k];
    assert w.Scanning? ==> OwnsNone(s.endpoints, e.k) by { hide OwnsNone; }
    hide OneInv, DoTry, DoList, DoLabel, DoWrite, DoRecord, DoRelease, DoUnlabel, DoClear, Doing, Hides, OwnsNone;
    match e
    case Write(k, patch) => OneWrites(s, k, w.from, w.to, patch);
    case Label(k, patch) => OneLabels(c, s, k, w.copy, w.base, patch);
    case List(k, listed) => OneLists(s, k, w.copy, w.base, listed);
    case Try(k, reachable) => OneTries(c, s, k, w.copy, w.base, w.next, w.used, reachable);
    case Record(k, patch) => OneRecords(s, k, w.copy, w.claimed, patch);
    case Release(k, reachable) => OneReleases(s, k, w.copy, reachable);
    case Unlabel(k, patch) => OneUnlabels(s, k, w.copy, patch);
    case Clear(k, patch) => OneRecords(s, k, w.copy, 0, patch);
    case Abort(k) => OneMoveOn(s, k, Idle);
  }

  lemma {:induction false} RunKeepsOne(c: Config, states: seq<State>, events: seq<Event>, i: nat)
    requires c.Valid() && IsRun(c, states, events) && i < |states|
    requires forall j :: 0 <= j < i ==> NothingHidden(states[j], events[j])
    ensures OneInv(states[i])
  {
    hide Apply, Enabled, NothingHidden;
    if i > 0 {
      RunKeepsOne(c, states, events, i - 1);
      assert Next(c, states[i - 1], events[i - 1], states[i - 1 + 1]);
      StepKeepsOne(c, states[i - 1], events[i - 1]);
    }
  }

  /** Each peer owns at most one endpoint, in every run whose lists do not hide a peer's own endpoint from
      it; reads may be old, patches lost, endpoints collected and reconciles cut off anywhere. */
  lemma OneEndpointPerPeer(c: Config, states: seq<State>, events: seq<Event>, i: nat, k: Key)
    requires c.Valid() && IsRun(c, states, events) && i < |states|
    requires forall j :: 0 <= j < i ==> NothingHidden(states[j], events[j])
    ensures forall x, y | Owns(states[i].endpoints, k, x) && Owns(states[i].endpoints, k, y) :: x == y
  {
    hide IsRun, NothingHidden, ScansOk;
    RunKeepsOne(c, states, events, i);
    assert OwnsAtMostOne(states[i].endpoints, k);
  }

  // ================================================================ addresses are not shared

  predicate Leaving(w: Work) { w.Unlabelling? || w.Clearing? }

  /** What an address held by one peer depends on. */
  datatype Clause = LeavesKnown | NoPhantoms | NotCollected | LabelsRemoved | StatusCleared | LeavesFinish

  /** The endpoint of an address a peer shows, or is about to record. */
  predicate InUse(k: Key, p: Peer, w: Work, key: EndpointKey) {
    || (p.address.Some? && AddressKey(k, p.address.value) == key)
    || (w.Recording? && AddressKey(k, w.claimed) == key)
  }

  predicate NoLabelsLeft(w: Work) { w.Unlabelling? && Unlabelled(w.copy) == w.copy }

  ghost predicate Keeps(clause: Clause, s: State, e: Event) {
    match clause
    // a reconcile that is to leave has read the address the peer shows
    case LeavesKnown =>
      e.Begin? && Decide(e.copy) == Leave ==> e.k in s.peers && e.copy.address == s.peers[e.k].address
    // a list does not show a peer an endpoint it does not have
    case NoPhantoms =>
      e.List? && OwnListed(e.listed, e.k.name).Some? ==>
        Owns(s.endpoints, e.k, AddressKey(e.k, OwnListed(e.listed, e.k.name).value))
    // no endpoint is collected that a peer shows or is about to record
    case NotCollected =>
      e.Collect? ==> forall k | k in s.peers && k in s.work :: !InUse(k, s.peers[k], s.work[k], e.key)
    // after a release the labels are removed, if there are any
    case LabelsRemoved => e.Unlabel? && e.patch == Refused ==> e.k in s.work && NoLabelsLeft(s.work[e.k])
    // the clear after a release is applied
    case StatusCleared => e.Clear? ==> e.patch == Applied
    // a reconcile is not cut off between release and clear
    case LeavesFinish => e.Abort? ==> e.k in s.work && !Leaving(s.work[e.k])
  }

  /** An address a peer shows is that of an endpoint it owns, except between release and clear. */
  ghost predicate HeldOk(endpoints: Endpoints, k: Key, p: Peer, w: Work) {
    && (!Leaving(w) && p.address.Some? ==> Owns(endpoints, k, AddressKey(k, p.address.value)))
    && match w
       case Recording(_, a) => Owns(endpoints, k, AddressKey(k, a))
       case Releasing(copy) => copy.address == p.address
       case Unlabelling(copy) => copy.address == p.address
       case Clearing(copy) => copy.address == p.address
       case _ => true
  }

  ghost predicate Held(endpoints: Endpoints, peers: map<Key, Peer>, work: map<Key, Work>) {
    forall k | k in peers && k in work :: HeldOk(endpoints, k, peers[k], work[k])
  }

  ghost predicate HeldInv(s: State) { Held(s.endpoints, s.peers, s.work) }

  lemma MoveOn(s: State, k: Key, w: Work)
    requires HeldInv(s) && k in s.peers && HeldOk(s.endpoints, k, s.peers[k], w)
    ensures HeldInv(Doing(s, k, w))
  {
    hide HeldOk;
  }

  lemma StoreAndMoveOn(s: State, k: Key, p: Peer, w: Work)
    requires HeldInv(s) && HeldOk(s.endpoints, k, p, w)
    ensures HeldInv(Doing(Storing(s, k, p), k, w))
  {
    hide HeldOk;
  }

  lemma Current(s: State, k: Key)
    requires HeldInv(s) && InFlight(s, k)
    ensures HeldOk(s.endpoints, k, s.peers[k], s.work[k])
  {
    hide HeldOk;
  }

  /** A change of the endpoints that takes none of a peer's own away. */
  lemma StillHeld(before: Endpoints, after: Endpoints, j: Key, p: Peer, w: Work)
    requires HeldOk(before, j, p, w)
    requires forall key | key in before && Owns(before, j, key) && InUse(j, p, w, key) :: Owns(after, j, key)
    ensures HeldOk(after, j, p, w)
  {
    hide IpName;
  }

  lemma CreateHeld(s: State, k: Key, copy: Peer, a: Addr)
    requires HeldInv(s) && InFlight(s, k) && !Leaving(s.work[k]) && AddressKey(k, a) !in s.endpoints
    ensures HeldInv(Doing(Holding(s, k, a), k, Recording(copy, a)))
  {
    hide IpName, HeldOk;
    var after := s.endpoints[AddressKey(k, a) := Endpoint(a, k.name)];
    forall j | j in s.peers && j in s.work ensures HeldOk(after, j, s.peers[j], s.work[j]) {
      StillHeld(s.endpoints, after, j, s.peers[j], s.work[j]);
    }
    assert HeldOk(after, k, s.peers[k], Recording(copy, a)) by {
      CreatedHeld(s.endpoints, k, a, s.peers[k], s.work[k], copy);
    }
  }

  lemma CreatedHeld(endpoints: Endpoints, k: Key, a: Addr, p: Peer, w: Work, copy: Peer)
    requires HeldOk(endpoints, k, p, w) && !Leaving(w)
    ensures HeldOk(endpoints[AddressKey(k, a) := Endpoint(a, k.name)], k, p, Recording(copy, a))
  {
    hide IpName;
  }

  lemma DropHeld(s: State, key: EndpointKey)
    requires HeldInv(s) && forall k | k in s.peers && k in s.work :: !InUse(k, s.peers[k], s.work[k], key)
    ensures HeldInv(DoCollect(s, key))
  {
    hide IpName, HeldOk;
    var after := s.endpoints - {key};
    forall j | j in s.peers && j in s.work ensures HeldOk(after, j, s.peers[j], s.work[j]) {
      StillHeld(s.endpoints, after, j, s.peers[j], s.work[j]);
    }
  }

  lemma ReleaseHeld(s: State, k: Key, copy: Peer, reachable: bool)
    requires HeldInv(s) && InFlight(s, k) && s.work[k] == Releasing(copy)
    ensures HeldInv(DoRelease(s, k, copy, reachable))
  {
    Current(s, k);
    if copy.address == None || !reachable {
      assert HeldOk(s.endpoints, k, s.peers[k], Idle) &&
        HeldOk(s.endpoints, k, s.peers[k], Unlabelling(copy)) by { hide IpName; }
      hide HeldInv, HeldOk, Doing, IpName;
      MoveOn(s, k, Idle);
      MoveOn(s, k, Unlabelling(copy));
    } else {
      var key := AddressKey(k, copy.address.value);
      assert Owns(s.endpoints, k, key) by { hide IpName; }
      var after := s.endpoints - {key};
      hide IpName, HeldOk;
      forall j | j in s.peers && j in s.work && j != k ensures HeldOk(after, j, s.peers[j], s.work[j]) {
        StillHeld(s.endpoints, after, j, s.peers[j], s.work[j]);
      }
      ReleasedHeld(after, k, s.peers[k], copy);
    }
  }

  lemma ReleasedHeld(endpoints: Endpoints, k: Key, p: Peer, copy: Peer)
    requires copy.address == p.address
    ensures HeldOk(endpoints, k, p, Unlabelling(copy))
  {
  }

  lemma BeginHeld(s: State, k: Key, copy: Peer, read: NetworkRead)
    requires HeldInv(s) && CanBegin(s, k, copy, read) && (Decide(copy) == Leave ==> copy.address == s.peers[k].address)
    ensures HeldInv(DoBegin(s, k, copy, read))
  {
    Current(s, k);
    assert HeldOk(s.endpoints, k, s.peers[k], Start(copy, read)) by { hide IpName; }
    hide HeldInv, HeldOk, Start, Doing;
    MoveOn(s, k, Start(copy, read));
  }

  lemma WriteHeld(s: State, k: Key, from: Peer, to: Peer, patch: Patch)
    requires HeldInv(s) && InFlight(s, k) && s.work[k] == Patching(from, to) && from.address == to.address
    ensures HeldInv(DoWrite(s, k, from, to, patch))
  {
    hide HeldInv, Doing, Storing, MergeLabels, IpName;
    Current(s, k);
    MoveOn(s, k, Idle);
    MoveOn(s, k, Patching(from, from.(phase := Pending)));
    if from == s.peers[k] {
      StoreAndMoveOn(s, k, to, Idle);
    }
    StoreAndMoveOn(s, k, MergeMeta(MergeStatus(s.peers[k], from, to), from, to), Idle);
  }

  lemma LabelHeld(c: Config, s: State, k: Key, copy: Peer, base: Addr, patch: Patch)
    requires HeldInv(s) && InFlight(s, k) && s.work[k] == Labelling(copy, base) && copy.specNet.Some?
    ensures HeldInv(DoLabel(c, s, k, copy, base, patch))
  {
    Current(s, k);
    hide HeldInv, Doing, Storing, Labelled, MergeLabels, NetworkLabels, IpName;
    MoveOn(s, k, Listing(copy, base));
    MoveOn(s, k, Failing(copy));
    StoreAndMoveOn(s, k, MergeMeta(s.peers[k], copy, Labelled(c.digest, copy)), Idle);
  }

  lemma ListHeld(s: State, k: Key, copy: Peer, base: Addr, listed: seq<Listed>)
    requires HeldInv(s) && InFlight(s, k) && s.work[k] == Listing(copy, base) && Keeps(NoPhantoms, s, List(k, listed))
    ensures HeldInv(DoList(s, k, copy, base, listed))
  {
    Current(s, k);
    var t := DoList(s, k, copy, base, listed);
    assert HeldOk(s.endpoints, k, s.peers[k], t.work[k]) by { hide IpName, OwnListed, ListedNames, HostLow; }
    hide HeldInv, HeldOk, Doing, OwnListed;
    MoveOn(s, k, t.work[k]);
  }

  lemma TryHeld(c: Config, s: State, k: Key, copy: Peer, base: Addr, next: int, used: set<string>, reachable: bool)
    requires c.Valid() && HeldInv(s) && InFlight(s, k) && s.work[k] == Scanning(copy, base, next, used)
    ensures HeldInv(DoTry(c, s, k, copy, base, next, used, reachable))
  {
    Current(s, k);
    hide HeldInv, Doing, Holding, IpName, HostHigh;
    MoveOn(s, k, Failing(copy));
    MoveOn(s, k, Scanning(copy, base, next + 1, used));
    if 0 <= next <= HostHigh(base, c.pool.subnetMask) && EndpointKey(k.ns, IpName(next)) !in s.endpoints {
      CreateHeld(s, k, copy, next);
    }
  }

  lemma RecordHeld(s: State, k: Key, copy: Peer, a: Addr, patch: Patch)
    requires HeldInv(s) && InFlight(s, k) && s.work[k] == Recording(copy, a) && copy.address == None
    ensures HeldInv(DoRecord(s, k, copy, a, patch))
  {
    Current(s, k);
    hide HeldInv, Doing, Storing, IpName;
    MoveOn(s, k, Idle);
    StoreAndMoveOn(s, k, MergeStatus(s.peers[k], copy, Joined(copy, a)), Idle);
  }

  lemma UnlabelHeld(s: State, k: Key, copy: Peer, patch: Patch)
    requires HeldInv(s) && InFlight(s, k) && s.work[k] == Unlabelling(copy)
    requires patch == Refused ==> Unlabelled(copy) == copy
    ensures HeldInv(DoUnlabel(s, k, copy, patch))
  {
    Current(s, k);
    hide HeldInv, Doing, Storing, Unlabelled, MergeLabels, NetworkLabels, IpName;
    MoveOn(s, k, Clearing(copy));
    StoreAndMoveOn(s, k, MergeMeta(s.peers[k], copy, Unlabelled(copy)), Clearing(Unlabelled(copy)));
  }

  lemma ClearHeld(s: State, k: Key, copy: Peer)
    requires HeldInv(s) && InFlight(s, k) && s.work[k] == Clearing(copy) && copy.address.Some?
    ensures HeldInv(DoClear(s, k, copy, Applied))
  {
    Current(s, k);
    hide HeldInv, Doing, Storing, IpName;
    StoreAndMoveOn(s, k, MergeStatus(s.peers[k], copy, Cleared(copy)), Idle);
  }

  lemma AbortHeld(s: State, k: Key)
    requires HeldInv(s) && InFlight(s, k) && !Leaving(s.work[k])
    ensures HeldInv(Doing(s, k, Idle))
  {
    Current(s, k);
    hide HeldInv, Doing, IpName;
    MoveOn(s, k, Idle);
  }

  lemma EditHeld(s: State, k: Key, specNet: Option<string>, labels: Labels)
    requires HeldInv(s) && k in s.peers
    ensures HeldInv(DoEdit(s, k, specNet, labels))
  {
    hide IpName, Owns;
  }

  lemma CreatedPeerHeld(s: State, k: Key, specNet: Option<string>, labels: Labels)
    requires HeldInv(s)
    ensures HeldInv(DoCreate(s, k, specNet, labels))
  {
    hide HeldInv, Doing, Storing;
    StoreAndMoveOn(s, k, Peers.NewPeer(specNet, labels), Idle);
  }

  lemma NetworkHeld(s: State, n: Key, base: Addr, patch: Patch)
    requires HeldInv(s)
    ensures HeldInv(DoClaim(s, n, base))
    ensures n in s.claims ==> HeldInv(DoPublish(s, n, patch))
  {
    hide Held, SubnetName;
  }

  /** Every step that keeps all clauses keeps every address with its owner. */
  lemma StepKeepsHeld(c: Config, s: State, e: Event)
    requires c.Valid() && HeldInv(s) && StatusShape.Inv(s) && Enabled(c, s, e)
    requires forall clause :: Keeps(clause, s, e)
    ensures HeldInv(Apply(c, s, e))
  {
    KeptOutside(s, e);
    hide Keeps, HeldInv, DoTry, DoList, DoLabel, DoBegin, DoWrite, DoRecord, DoRelease, DoUnlabel, DoClear;
    hide DoCreate, DoEdit, DoCollect, DoClaim, DoPublish, CanClaim, CanBegin, CanEdit, Storing, Doing;
    hide StatusShape.Inv, InUse, Decide;
    match e
    case Create(k, specNet, labels) => CreatedPeerHeld(s, k, specNet, labels);
    case Edit(k, specNet, labels) =>
      EditKnown(s, k, labels);
      EditHeld(s, k, specNet, labels);
    case Collect(key) => DropHeld(s, key);
    case ClaimSubnet(n, names, base) => NetworkHeld(s, n, base, Applied);
    case PublishCidr(n, patch) => NetworkHeld(s, n, 0, patch);
    case Begin(k, copy, read) => BeginHeld(s, k, copy, read);
    case _ => WorkStepKeepsHeld(c, s, e);
  }

  lemma KeptAtWork(s: State, e: Event)
    requires forall clause :: Keeps(clause, s, e)
    ensures Keeps(NoPhantoms, s, e)
    ensures e.Clear? ==> e.patch == Applied
    ensures e.Abort? ==> e.k in s.work && !Leaving(s.work[e.k])
    ensures e.Unlabel? && e.patch == Refused ==> e.k in s.work && NoLabelsLeft(s.work[e.k])
  {
    hide NoLabelsLeft, OwnListed, InUse, Decide;
    assert Keeps(LabelsRemoved, s, e) && Keeps(StatusCleared, s, e) && Keeps(LeavesFinish, s, e);
  }

  lemma KeptOutside(s: State, e: Event)
    requires forall clause :: Keeps(clause, s, e)
    ensures e.Begin? && Decide(e.copy) == Leave ==> e.k in s.peers && e.copy.address == s.peers[e.k].address
    ensures e.Collect? ==> forall k | k in s.peers && k in s.work :: !InUse(k, s.peers[k], s.work[k], e.key)
  {
    hide NoLabelsLeft, OwnListed, InUse, Decide;
    assert Keeps(LeavesKnown, s, e) && Keeps(NotCollected, s, e);
  }

  lemma WorkStepKeepsHeld(c: Config, s: State, e: Event)
    requires c.Valid() && HeldInv(s) && StatusShape.Inv(s) && Enabled(c, s, e)
    requires forall clause :: Keeps(clause, s, e)
    requires !e.Create? && !e.Edit? && !e.Collect? && !e.ClaimSubnet? && !e.PublishCidr? && !e.Begin?
    ensures HeldInv(Apply(c, s, e))
  {
    hide HeldInv, DoTry, DoList, DoLabel, DoWrite, DoRecord, DoRelease, DoUnlabel, DoClear, Doing, StatusShape.Inv;
    hide InUse, OwnListed, Decide, Unlabelled, AddressKey;
    var w := s.work[e.k];
    KeptAtWork(s, e);
    hide Keeps;
    StatusShape.StoredShaped(s, e.k);
    match e
    case Write(k, patch) => WriteHeld(s, k, w.from, w.to, patch);
    case Label(k, patch) => LabelHeld(c, s, k, w.copy, w.base, patch);
    case List(k, listed) => ListHeld(s, k, w.copy, w.base, listed);
    case Try(k, reachable) => TryHeld(c, s, k, w.copy, w.base, w.next, w.used, reachable);
    case Record(k, patch) => RecordHeld(s, k, w.copy, w.claimed, patch);
    case Release(k, reachable) => ReleaseHeld(s, k, w.copy, reachable);
    case Unlabel(k, patch) => UnlabelHeld(s, k, w.copy, patch);
    case Clear(k, patch) => ClearHeld(s, k, w.copy);
    case Abort(k) => AbortHeld(s, k);
  }

  ghost predicate Careful(s: State, e: Event) { forall clause :: Keeps(clause, s, e) }

  lemma {:induction false} RunKeepsHeld(c: Config, states: seq<State>, events: seq<Event>, i: nat)
    requires c.Valid() && IsRun(c, states, events) && i < |states|
    requires forall j :: 0 <= j < i ==> Careful(states[j], events[j])
    ensures HeldInv(states[i])
  {
    hide Apply, Enabled, Keeps;
    if i > 0 {
      RunKeepsHeld(c, states, events, i - 1);
      StatusShape.RunKeepsShape(c, states, events, i - 1);
      assert Next(c, states[i - 1], events[i - 1], states[i - 1 + 1]);
      StepKeepsHeld(c, states[i - 1], events[i - 1]);
    }
  }

  /** Two different peers of one namespace, neither in the middle of leaving, that show one address. */
  predicate Share(s: State, p: Key, q: Key) {
    && InFlight(s, p) && InFlight(s, q) && p != q && p.ns == q.ns && !Leaving(s.work[p]) && !Leaving(s.work[q])
    && s.peers[p].address.Some? && s.peers[p].address == s.peers[q].address
  }

  /** Two peers of one namespace that are not in the middle of leaving never show the same address, in every
      run that keeps the clauses; lists may hide endpoints, joins may start from old copies, patches of joins
      may be lost and reconciles be cut off, across any number of network switches. */
  lemma AddressesNotShared(c: Config, states: seq<State>, events: seq<Event>, i: nat, p: Key, q: Key)
    requires c.Valid() && IsRun(c, states, events) && i < |states|
    requires forall j :: 0 <= j < i ==> Careful(states[j], events[j])
    ensures !Share(states[i], p, q)
  {
    hide IsRun, Careful;
    RunKeepsHeld(c, states, events, i);
    var s := states[i];
    if InFlight(s, p) && InFlight(s, q) {
      Current(s, p);
      Current(s, q);
      hide HeldInv, IpName;
    }
  }
}
