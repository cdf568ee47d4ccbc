/** What every stored version of a peer looks like, in every run of the control plane: the active network and
    the allocated address are set and cleared together. */
module StatusShape {
  import opened Prelude
  import opened Ipv4
  import opened KeyNames
  import opened Ipam
  import opened Peers
  import opened ControlPlane

  // ================================================================ status

  predicate Shaped(p: Peer) { p.activeNet == None <==> p.address == None }

  predicate PeersShaped(peers: map<Key, Peer>) {
    forall k | k in peers :: Shaped(peers[k])
  }

  ghost predicate PastShaped(past: map<Key, set<Peer>>) {
    forall k, p | k in past && p in past[k] :: Shaped(p)
  }

  /** Joins work on a copy outside any network, leaves on a copy inside one, the other patches do
      not touch the two fields. */
  predicate WorkShaped(w: Work) {
    match w
    case Idle => true
    case Patching(from, to) => Shaped(from) && to.activeNet == from.activeNet && to.address == from.address
    case Releasing(copy) => copy.activeNet.Some? && copy.address.Some?
    case Unlabelling(copy) => copy.activeNet.Some? && copy.address.Some?
    case Clearing(copy) => copy.activeNet.Some? && copy.address.Some?
    case _ => w.copy.specNet.Some? && w.copy.activeNet == None && w.copy.address == None
  }

  predicate WorksShaped(work: map<Key, Work>) {
    forall k | k in work :: WorkShaped(work[k])
  }

  ghost predicate Inv(s: State) {
    PeersShaped(s.peers) && PastShaped(s.past) && WorksShaped(s.work)
  }

  lemma MoveOn(s: State, k: Key, w: Work)
    requires Inv(s) && WorkShaped(w)
    ensures Inv(Doing(s, k, w))
  {
    hide PeersShaped, PastShaped, WorkShaped;
  }

  lemma Store(s: State, k: Key, p: Peer)
    requires Inv(s) && Shaped(p)
    ensures Inv(Storing(s, k, p))
  {
    hide WorksShaped, Shaped;
  }

  lemma StoreAndMoveOn(s: State, k: Key, p: Peer, w: Work)
    requires Inv(s) && Shaped(p) && WorkShaped(w)
    ensures Inv(Doing(Storing(s, k, p), k, w))
  {
    hide Inv, Shaped, WorkShaped;
    Store(s, k, p);
    MoveOn(Storing(s, k, p), k, w);
  }

  lemma StoredShaped(s: State, k: Key)
    requires Inv(s) && k in s.peers
    ensures Shaped(s.peers[k])
    ensures k in s.work ==> WorkShaped(s.work[k])
  {
    hide PastShaped, WorkShaped, Shaped;
  }

  /** The patches: a join sets both fields, a leave clears both, whatever was stored by then. */
  lemma PatchesShaped(stored: Peer, copy: Peer, to: Peer, a: Addr)
    ensures WorkShaped(Recording(copy, a)) ==> Shaped(MergeStatus(stored, copy, Joined(copy, a)))
    ensures WorkShaped(Clearing(copy)) ==> Shaped(MergeStatus(stored, copy, Cleared(copy)))
    ensures Shaped(stored) ==> Shaped(MergeMeta(stored, copy, to))
    ensures Shaped(stored) && WorkShaped(Patching(copy, to)) ==> Shaped(to) && Shaped(MergeStatus(stored, copy, to))
  {
    hide MergeLabels;
  }

  lemma BeginShaped(s: State, k: Key, copy: Peer, read: NetworkRead)
    requires Inv(s) && CanBegin(s, k, copy, read)
    ensures Inv(DoBegin(s, k, copy, read))
  {
    assert Shaped(copy) by { hide WorksShaped, PeersShaped, Shaped; }
    StartShaped(copy, read);
    hide Inv, Start, WorkShaped, Doing;
    MoveOn(s, k, Start(copy, read));
  }

  lemma StartShaped(copy: Peer, read: NetworkRead)
    requires Shaped(copy) && (read.Cidr? ==> copy.specNet.Some?)
    ensures WorkShaped(Start(copy, read))
  {
  }

  lemma WriteShaped(s: State, k: Key, from: Peer, to: Peer, patch: Patch)
    requires Inv(s) && k in s.peers && WorkShaped(Patching(from, to))
    ensures Inv(DoWrite(s, k, from, to, patch))
  {
    hide Inv, Doing, Storing, MergeMeta, MergeStatus;
    var p := s.peers[k];
    StoredShaped(s, k);
    PatchesShaped(p, from, to, 0);
    PatchesShaped(MergeStatus(p, from, to), from, to, 0);
    MoveOn(s, k, Idle);
    MoveOn(s, k, Patching(from, from.(phase := Pending)));
    StoreAndMoveOn(s, k, to, Idle);
    StoreAndMoveOn(s, k, MergeMeta(MergeStatus(p, from, to), from, to), Idle);
  }

  lemma LabelShaped(c: Config, s: State, k: Key, copy: Peer, base: Addr, patch: Patch)
    requires Inv(s) && k in s.peers && WorkShaped(Labelling(copy, base))
    ensures Inv(DoLabel(c, s, k, copy, base, patch))
  {
    hide Inv, Doing, Storing, Labelled, MergeMeta, NetworkLabels;
    StoredShaped(s, k);
    PatchesShaped(s.peers[k], copy, Labelled(c.digest, copy), 0);
    MoveOn(s, k, Listing(copy, base));
    MoveOn(s, k, Failing(copy));
    StoreAndMoveOn(s, k, MergeMeta(s.peers[k], copy, Labelled(c.digest, copy)), Idle);
  }

  lemma TryShaped(c: Config, s: State, k: Key, copy: Peer, base: Addr, next: int, used: set<string>, reachable: bool)
    requires c.Valid() && Inv(s) && WorkShaped(Scanning(copy, base, next, used))
    ensures Inv(DoTry(c, s, k, copy, base, next, used, reachable))
  {
    hide Inv, Doing, Holding, IpName, HostHigh;
    MoveOn(s, k, Failing(copy));
    MoveOn(s, k, Scanning(copy, base, next + 1, used));
    if 0 <= next <= HostHigh(base, c.pool.subnetMask) {
      HoldShaped(s, k, next);
      MoveOn(Holding(s, k, next), k, Recording(copy, next));
    }
  }

  lemma HoldShaped(s: State, k: Key, a: Addr)
    requires Inv(s)
    ensures Inv(Holding(s, k, a))
  {
    hide PeersShaped, PastShaped, WorksShaped, IpName;
  }

  lemma ListShaped(s: State, k: Key, copy: Peer, base: Addr, listed: seq<Listed>)
    requires Inv(s) && WorkShaped(Listing(copy, base))
    ensures Inv(DoList(s, k, copy, base, listed))
  {
    hide Inv, Doing, HostLow, OwnListed, ListedNames;
    match OwnListed(listed, k.name)
    case Some(a) => MoveOn(s, k, Recording(copy, a));
    case None => MoveOn(s, k, Scanning(copy, base, HostLow(base), ListedNames(listed)));
  }

  lemma LeaveShaped(s: State, k: Key, copy: Peer, patch: Patch, reachable: bool)
    requires Inv(s) && k in s.peers && WorkShaped(Clearing(copy))
    ensures Inv(DoRelease(s, k, copy, reachable))
    ensures Inv(DoUnlabel(s, k, copy, patch))
    ensures Inv(DoClear(s, k, copy, patch))
  {
    hide Inv, Doing, Storing, Unlabelled, MergeMeta, MergeStatus, NetworkLabels, IpName, Cleared, DoCollect;
    StoredShaped(s, k);
    PatchesShaped(s.peers[k], copy, Unlabelled(copy), 0);
    MoveOn(s, k, Idle);
    MoveOn(s, k, Clearing(copy));
    MoveOn(s, k, Failing(copy));
    CollectShaped(s, EndpointKey(k.ns, IpName(copy.address.value)));
    MoveOn(DoCollect(s, EndpointKey(k.ns, IpName(copy.address.value))), k, Unlabelling(copy));
    StoreAndMoveOn(s, k, MergeMeta(s.peers[k], copy, Unlabelled(copy)), Clearing(Unlabelled(copy)));
    StoreAndMoveOn(s, k, MergeStatus(s.peers[k], copy, Cleared(copy)), Idle);
  }

  lemma CollectShaped(s: State, key: EndpointKey)
    requires Inv(s)
    ensures Inv(DoCollect(s, key))
  {
    hide PeersShaped, PastShaped, WorksShaped;
  }

  lemma NetworkShaped(s: State, n: Key, base: Addr, patch: Patch)
    requires Inv(s)
    ensures Inv(DoClaim(s, n, base))
    ensures n in s.claims ==> Inv(DoPublish(s, n, patch))
  {
    hide PeersShaped, PastShaped, WorksShaped, SubnetName;
  }

  lemma RecordShaped(s: State, k: Key, copy: Peer, a: Addr, patch: Patch)
    requires Inv(s) && k in s.peers && WorkShaped(Recording(copy, a))
    ensures Inv(DoRecord(s, k, copy, a, patch))
  {
    hide Inv, Doing, Storing, MergeStatus, Joined;
    PatchesShaped(s.peers[k], copy, copy, a);
    MoveOn(s, k, Idle);
    StoreAndMoveOn(s, k, MergeStatus(s.peers[k], copy, Joined(copy, a)), Idle);
  }

  lemma StepKeepsShape(c: Config, s: State, e: Event)
    requires c.Valid() && Inv(s) && Enabled(c, s, e)
    ensures Inv(Apply(c, s, e))
  {
    hide Inv, DoTry, DoList, DoLabel, DoBegin, DoPublish, DoClaim, DoWrite, DoRecord, DoRelease, DoUnlabel, DoClear,
         DoCollect, CanClaim, CanBegin, Storing, Doing, HasPrefix;
    match e
    case Create(k, specNet, labels) => StoreAndMoveOn(s, k, Peers.NewPeer(specNet, labels), Idle);
    case Edit(k, specNet, labels) =>
      StoredShaped(s, k);
      Store(s, k, s.peers[k].(specNet := specNet, labels := labels));
    case Collect(key) => CollectShaped(s, key);
    case ClaimSubnet(n, names, base) => NetworkShaped(s, n, base, Applied);
    case PublishCidr(n, patch) => NetworkShaped(s, n, 0, patch);
    case Begin(k, copy, read) => BeginShaped(s, k, copy, read);
    case _ => WorkStepKeepsShape(c, s, e);
  }

  lemma WorkStepKeepsShape(c: Config, s: State, e: Event)
    requires c.Valid() && Inv(s) && Enabled(c, s, e)
    requires !e.Create? && !e.Edit? && !e.Collect? && !e.ClaimSubnet? && !e.PublishCidr? && !e.Begin?
    ensures Inv(Apply(c, s, e))
  {
    hide Inv, DoTry, DoList, DoLabel, DoWrite, DoRecord, DoRelease, DoUnlabel, DoClear, Doing;
    var w := s.work[e.k];
    StoredShaped(s, e.k);
    match e
    case Write(k, patch) => WriteShaped(s, k, w.from, w.to, patch);
    case Label(k, patch) => LabelShaped(c, s, k, w.copy, w.base, patch);
    case List(k, listed) => ListShaped(s, k, w.copy, w.base, listed);
    case Try(k, reachable) => TryShaped(c, s, k, w.copy, w.base, w.next, w.used, reachable);
    case Record(k, patch) => RecordShaped(s, k, w.copy, w.claimed, patch);
    case Release(k, reachable) => LeaveShaped(s, k, w.copy, Applied, reachable);
    case Unlabel(k, patch) => LeaveShaped(s, k, w.copy, patch, true);
    case Clear(k, patch) => LeaveShaped(s, k, w.copy, patch, true);
    case Abort(k) => MoveOn(s, k, Idle);
  }

  lemma {:induction false} RunKeepsShape(c: Config, states: seq<State>, events: seq<Event>, i: nat)
    requires c.Valid() && IsRun(c, states, events) && i < |states|
    ensures Inv(states[i])
  {
    if i > 0 {
      RunKeepsShape(c, states, events, i - 1);
      assert Next(c, states[i - 1], events[i - 1], states[i - 1 + 1]);
      StepKeepsShape(c, states[i - 1], events[i - 1]);
    }
  }

  /** In every reachable state, stale reads, swallowed conflicts and failures included, a peer has an
      active network exactly when it has an allocated address. */
  lemma ActiveIffAllocated(c: Config, states: seq<State>, events: seq<Event>, i: nat, k: Key)
    requires c.Valid() && IsRun(c, states, events) && i < |states| && k in states[i].peers
    ensures states[i].peers[k].activeNet == None <==> states[i].peers[k].address == None
  {
    RunKeepsShape(c, states, events, i);
    StoredShaped(states[i], k);
  }
}
