/** The peer reconciles of the control plane, cut into API calls and interleaved with everything else, seen
    from one peer: each is one round of the handlers, so what holds of repeated rounds holds of every run. */
module Interleaved {
  import opened Prelude
  import opened Ipv4
  import opened KeyNames
  import opened Ipam
  import opened Peers
  import opened ControlPlane
  import opened PeerReconciler

  /** Nobody edits the peer, none of its reconciles is cut off, and they start from its stored version. */
  predicate LeftAlone(s: State, e: Event, k: Key) {
    match e
    case Edit(j, _, _) => j != k
    case Abort(j) => j != k
    case Begin(j, copy, _) => j == k ==> k in s.peers && copy == s.peers[k]
    case _ => true
  }

  /** No call of the peer's reconciles fails, and a join finds a ready network with a candidate left. */
  predicate Succeeds(c: Config, s: State, e: Event, k: Key)
    requires c.Valid()
  {
    match e
    case Begin(j, copy, read) => j == k && Decide(copy) == Join ==> read.Cidr?
    case Write(j, patch) => j == k ==> patch == Applied
    case Label(j, patch) => j == k ==> patch == Applied
    case Try(j, reachable) =>
      j == k && k in s.work && s.work[k].Scanning? ==>
        reachable && 0 <= s.work[k].next <= HostHigh(s.work[k].base, c.pool.subnetMask)
    case Record(j, patch) => j == k ==> patch == Applied
    case Release(j, reachable) => j == k ==> reachable
    case Unlabel(j, patch) => j == k ==> patch == Applied
    case Clear(j, patch) => j == k ==> patch == Applied
    case _ => true
  }

  // ---------------------------------------------------------------- one reconcile

  /** A round of the handlers from p ends in q; without failures if they are calm. */
  ghost predicate Finished(digest: Digest, p: Peer, q: Peer, calm: bool) {
    exists env: Env :: q == Reconciled(digest, p, env) && (calm ==> env.Quiet(p.specNet))
  }

  /** What a reconcile that began with p may be about to write. */
  predicate Aims(p: Peer, to: Peer, calm: bool) {
    match Decide(p)
    case AddFinalizer => to == p.(finalizer := true)
    case MakeKeys => to == p.(hasKeys := true) || (!calm && to == p.(phase := Pending))
    case Initialize => to == p.(phase := Pending)
    case ToPending => to == p.(phase := Pending)
    case GoIdle => to == p.(phase := Ready)
    case Leave => !calm && to == p.(phase := Failed) && Unlabelled(p) != p
    case Join => !calm && to == p.(phase := Failed)
    case _ => false
  }

  predicate Joining(digest: Digest, p: Peer, q: Peer, copy: Peer, labelled: bool) {
    copy == q == p && Decide(p) == Join && (labelled ==> Labelled(digest, p) == p)
  }

  /** A reconcile began with p, the stored peer is q by now, and w is left to do. */
  predicate Underway(digest: Digest, p: Peer, q: Peer, w: Work, calm: bool) {
    match w
    case Idle => false
    case Patching(from, to) => from == q == p && Aims(p, to, calm)
    case Labelling(copy, _) => Joining(digest, p, q, copy, false)
    case Listing(copy, _) => Joining(digest, p, q, copy, calm)
    case Scanning(copy, _, _, _) => Joining(digest, p, q, copy, calm)
    case Recording(copy, _) => Joining(digest, p, q, copy, calm)
    case Releasing(copy) => copy == q == p && Decide(p) == Leave
    case Unlabelling(copy) => copy == q == p && Decide(p) == Leave
    case Clearing(copy) =>
      copy == q && Decide(p) == Leave && (q == Unlabelled(p) || (!calm && q == p))
  }

  /** Underway, or over as a round of the handlers. */
  ghost predicate Progress(digest: Digest, p: Peer, q: Peer, w: Work, calm: bool) {
    if w == Idle then Finished(digest, p, q, calm) else Underway(digest, p, q, w, calm)
  }

  const CALM := Env(Cidr(0), Some(0), true, Applied, Applied)

  lemma BeginMoves(digest: Digest, p: Peer, read: NetworkRead, calm: bool)
    requires calm && Decide(p) == Join ==> read.Cidr?
    ensures Progress(digest, p, p, Start(p, read), calm)
  {
    hide Labelled, Unlabelled;
    var env := CALM.(network := read);
    match Decide(p)
    case Join => assert read.NotReady? ==> Reconciled(digest, p, env) == p;
    case _ => assert Start(p, read) == Idle ==> Reconciled(digest, p, CALM) == p && CALM.Quiet(p.specNet);
  }

  /** The same, read from a state. */
  ghost predicate Moved(digest: Digest, p: Peer, t: State, k: Key, calm: bool) {
    InFlight(t, k) && Progress(digest, p, t.peers[k], t.work[k], calm)
  }

  lemma Goes(digest: Digest, p: Peer, s: State, k: Key, w: Work, calm: bool)
    requires InFlight(s, k) && Progress(digest, p, s.peers[k], w, calm)
    ensures Moved(digest, p, Doing(s, k, w), k, calm)
  {
    hide Progress;
  }

  lemma Stores(digest: Digest, p: Peer, s: State, k: Key, q: Peer, w: Work, calm: bool)
    requires InFlight(s, k) && Progress(digest, p, q, w, calm)
    ensures Moved(digest, p, Doing(Storing(s, k, q), k, w), k, calm)
  {
    hide Progress;
  }

  lemma WriteMoves(digest: Digest, s: State, k: Key, p: Peer, to: Peer, patch: Patch, calm: bool)
    requires InFlight(s, k) && s.peers[k] == p && Aims(p, to, calm) && (calm ==> patch == Applied)
    ensures Moved(digest, p, DoWrite(s, k, p, to, patch), k, calm)
  {
    hide InFlight, Moved, Doing, Storing;
    if patch == Conflict && p.hasKeys != to.hasKeys {
      Goes(digest, p, s, k, Patching(p, p.(phase := Pending)), calm);
    } else {
      WriteEnds(digest, p, to, patch, calm);
      hide Finished;
      if patch != Applied {
        Goes(digest, p, s, k, Idle, calm);
      } else {
        MergedIs(p, to, calm);
        Stores(digest, p, s, k, to, Idle, calm);
      }
    }
  }

  lemma MergedIs(p: Peer, to: Peer, calm: bool)
    requires Aims(p, to, calm)
    ensures p.finalizer == to.finalizer ==> MergeMeta(MergeStatus(p, p, to), p, to) == to
  {
    hide Unlabelled, MergeLabels;
    FreshMerge(p, to);
  }

  lemma WriteEnds(digest: Digest, p: Peer, to: Peer, patch: Patch, calm: bool)
    requires Aims(p, to, calm) && (calm ==> patch == Applied)
    requires patch == Conflict ==> to.hasKeys == p.hasKeys
    ensures Finished(digest, p, Patched(p, to, patch), calm)
  {
    hide Labelled;
    var env := CALM.(spec := patch, status := patch);
    match Decide(p)
    case MakeKeys =>
      if to == p.(phase := Pending) {
        assert Reconciled(digest, p, env.(spec := Conflict)) == Patched(p, to, patch);
      } else {
        assert Reconciled(digest, p, env) == Patched(p, to, patch);
      }
    case Leave => assert Reconciled(digest, p, env.(spec := Refused)) == Patched(p, to, patch);
    case Join => assert Reconciled(digest, p, env.(network := Missing)) == Patched(p, to, patch);
    case AddFinalizer => assert Reconciled(digest, p, env) == Patched(p, to, patch);
    case Initialize => assert Reconciled(digest, p, env) == Patched(p, to, patch);
    case ToPending => assert Reconciled(digest, p, env) == Patched(p, to, patch);
    case GoIdle => assert Reconciled(digest, p, env) == Patched(p, to, patch);
    case _ =>
  }

  lemma LabelMoves(c: Config, s: State, k: Key, p: Peer, base: Addr, patch: Patch, calm: bool)
    requires InFlight(s, k) && s.peers[k] == p && Decide(p) == Join && (calm ==> patch == Applied)
    ensures Moved(c.digest, p, DoLabel(c, s, k, p, base, patch), k, calm)
  {
    hide InFlight, Moved, Doing, Storing, Labelled, Progress, DoLabel, NetworkLabels, Failing;
    LabelIs(c, s, k, p, base, patch);
    var to := Labelled(c.digest, p);
    if to == p || !calm {
      ListingAhead(c.digest, p, base, calm);
    }
    if !calm {
      FailingAhead(c.digest, p, calm);
    }
    if to != p && patch == Applied {
      LabelEnds(c.digest, p, calm);
      Stores(c.digest, p, s, k, to, Idle, calm);
    } else if to == p || patch == Conflict {
      Goes(c.digest, p, s, k, Listing(p, base), calm);
    } else {
      Goes(c.digest, p, s, k, Failing(p), calm);
    }
  }

  lemma ListingAhead(digest: Digest, p: Peer, base: Addr, calm: bool)
    requires Joining(digest, p, p, p, calm)
    ensures Progress(digest, p, p, Listing(p, base), calm)
  {
  }

  lemma ClearingAhead(digest: Digest, p: Peer, q: Peer, calm: bool)
    requires Decide(p) == Leave && (q == Unlabelled(p) || (!calm && q == p))
    ensures Progress(digest, p, q, Clearing(q), calm)
  {
    hide Unlabelled, NetworkLabels;
  }

  lemma FailingAhead(digest: Digest, p: Peer, calm: bool)
    requires !calm && (Decide(p) == Join || (Decide(p) == Leave && Unlabelled(p) != p))
    ensures Progress(digest, p, p, Failing(p), calm)
  {
    hide Unlabelled, NetworkLabels;
  }

  lemma LabelEnds(digest: Digest, p: Peer, calm: bool)
    requires Decide(p) == Join && Labelled(digest, p) != p
    ensures Progress(digest, p, Labelled(digest, p), Idle, calm)
  {
    hide Labelled, NetworkLabels;
    assert Reconciled(digest, p, CALM) == Labelled(digest, p);
  }

  lemma LabelIs(c: Config, s: State, k: Key, p: Peer, base: Addr, patch: Patch)
    requires InFlight(s, k) && s.peers[k] == p && p.specNet.Some?
    ensures DoLabel(c, s, k, p, base, patch) ==
      if Labelled(c.digest, p) == p || patch == Conflict then Doing(s, k, Listing(p, base))
      else if patch == Applied then Doing(Storing(s, k, Labelled(c.digest, p)), k, Idle)
      else Doing(s, k, Failing(p))
  {
    FreshMerge(p, Labelled(c.digest, p));
    hide Doing, Storing, Labelled, MergeMeta;
  }

  lemma ListMoves(c: Config, s: State, k: Key, p: Peer, base: Addr, listed: seq<Listed>, calm: bool)
    requires InFlight(s, k) && Joining(c.digest, p, s.peers[k], p, calm)
    ensures Moved(c.digest, p, DoList(s, k, p, base, listed), k, calm)
  {
    hide InFlight, Moved, Doing, Joining, OwnListed, HostLow;
    match OwnListed(listed, k.name)
    case Some(a) => Goes(c.digest, p, s, k, Recording(p, a), calm);
    case None => Goes(c.digest, p, s, k, Scanning(p, base, HostLow(base), ListedNames(listed)), calm);
  }

  lemma TryMoves(c: Config, s: State, k: Key, p: Peer, base: Addr, next: int, used: set<string>, reachable: bool,
                 calm: bool)
    requires c.Valid() && InFlight(s, k) && Joining(c.digest, p, s.peers[k], p, calm)
    requires calm ==> reachable && 0 <= next <= HostHigh(base, c.pool.subnetMask)
    ensures Moved(c.digest, p, DoTry(c, s, k, p, base, next, used, reachable), k, calm)
  {
    hide Moved, Doing, Holding, Labelled, IpName, HostHigh;
    if 0 <= next <= HostHigh(base, c.pool.subnetMask) {
      Goes(c.digest, p, s, k, Scanning(p, base, next + 1, used), calm);
      HoldingSame(s, k, next);
      Goes(c.digest, p, Holding(s, k, next), k, Recording(p, next), calm);
    }
    if !calm {
      Goes(c.digest, p, s, k, Failing(p), calm);
    }
  }

  lemma HoldingSame(s: State, k: Key, a: Addr)
    requires InFlight(s, k)
    ensures InFlight(Holding(s, k, a), k) && Holding(s, k, a).peers == s.peers
  {
  }

  lemma RecordMoves(c: Config, s: State, k: Key, p: Peer, a: Addr, patch: Patch, calm: bool)
    requires InFlight(s, k) && Joining(c.digest, p, s.peers[k], p, calm) && (calm ==> patch == Applied)
    ensures Moved(c.digest, p, DoRecord(s, k, p, a, patch), k, calm)
  {
    hide InFlight, Moved, Doing, Storing, Labelled, Finished;
    RecordEnds(c.digest, p, a, patch, calm);
    if patch == Applied {
      Stores(c.digest, p, s, k, Joined(p, a), Idle, calm);
    } else {
      Goes(c.digest, p, s, k, Idle, calm);
    }
  }

  lemma RecordEnds(digest: Digest, p: Peer, a: Addr, patch: Patch, calm: bool)
    requires Joining(digest, p, p, p, calm) && (calm ==> patch == Applied)
    ensures Finished(digest, p, Patched(p, Joined(p, a), patch), calm)
  {
    hide Labelled;
    var env := CALM.(address := Some(a), spec := if calm then Applied else Conflict, status := patch);
    assert Reconciled(digest, p, env) == Patched(p, Joined(p, a), patch);
  }

  lemma ReleaseMoves(c: Config, s: State, k: Key, p: Peer, reachable: bool, calm: bool)
    requires InFlight(s, k) && s.peers[k] == p && Decide(p) == Leave && (calm ==> reachable)
    ensures Moved(c.digest, p, DoRelease(s, k, p, reachable), k, calm)
  {
    hide Moved, Doing, Unlabelled, IpName;
    if p.address.Some? && !reachable {
      assert Reconciled(c.digest, p, CALM.(released := false)) == p;
      Goes(c.digest, p, s, k, Idle, calm);
    } else if p.address.Some? {
      var key := EndpointKey(k.ns, IpName(p.address.value));
      Goes(c.digest, p, DoCollect(s, key), k, Unlabelling(p), calm);
    } else {
      Goes(c.digest, p, s, k, Unlabelling(p), calm);
    }
  }

  lemma UnlabelMoves(c: Config, s: State, k: Key, p: Peer, patch: Patch, calm: bool)
    requires InFlight(s, k) && s.peers[k] == p && Decide(p) == Leave && (calm ==> patch == Applied)
    ensures Moved(c.digest, p, DoUnlabel(s, k, p, patch), k, calm)
  {
    hide InFlight, Moved, Doing, Storing, Unlabelled, Progress, DoUnlabel, NetworkLabels, Failing;
    UnlabelIs(s, k, p, patch);
    var to := Unlabelled(p);
    ClearingAhead(c.digest, p, to, calm);
    if !calm {
      ClearingAhead(c.digest, p, p, calm);
    }
    if to != p && !calm {
      FailingAhead(c.digest, p, calm);
    }
    if to != p && patch == Applied {
      Stores(c.digest, p, s, k, to, Clearing(to), calm);
    } else if to == p || patch == Conflict {
      Goes(c.digest, p, s, k, Clearing(p), calm);
    } else {
      Goes(c.digest, p, s, k, Failing(p), calm);
    }
  }

  lemma UnlabelIs(s: State, k: Key, p: Peer, patch: Patch)
    requires InFlight(s, k) && s.peers[k] == p
    ensures DoUnlabel(s, k, p, patch) ==
      if Unlabelled(p) == p || patch == Conflict then Doing(s, k, Clearing(p))
      else if patch == Applied then Doing(Storing(s, k, Unlabelled(p)), k, Clearing(Unlabelled(p)))
      else Doing(s, k, Failing(p))
  {
    FreshMerge(p, Unlabelled(p));
    hide Doing, Storing, Unlabelled, MergeMeta;
  }

  lemma ClearMoves(c: Config, s: State, k: Key, p: Peer, q: Peer, patch: Patch, calm: bool)
    requires InFlight(s, k) && s.peers[k] == q && Underway(c.digest, p, q, Clearing(q), calm)
    requires calm ==> patch == Applied
    ensures Moved(c.digest, p, DoClear(s, k, q, patch), k, calm)
  {
    ClearEnds(c.digest, p, q, patch, calm);
    hide InFlight, Moved, Doing, Storing, Underway, Finished;
    if patch == Applied {
      Stores(c.digest, p, s, k, Cleared(q), Idle, calm);
    } else {
      Goes(c.digest, p, s, k, Idle, calm);
    }
  }

  lemma ClearEnds(digest: Digest, p: Peer, q: Peer, patch: Patch, calm: bool)
    requires Underway(digest, p, q, Clearing(q), calm) && (calm ==> patch == Applied)
    ensures Finished(digest, p, Patched(q, Cleared(q), patch), calm)
  {
    hide Unlabelled, NetworkLabels, Cleared;
    var env := CALM.(spec := if q == Unlabelled(p) then Applied else Conflict, status := patch);
    LeftBy(p, q, env);
    hide LeftNetwork;
    assert Reconciled(digest, p, env) == Patched(q, Cleared(q), patch);
  }

  lemma LeftBy(p: Peer, q: Peer, env: Env)
    requires env.released && q == Patched(p, Unlabelled(p), env.spec) && env.spec != Refused
    ensures LeftNetwork(p, env) == Patched(q, Cleared(q), env.status)
  {
    hide Unlabelled, NetworkLabels, Cleared;
  }

  // ---------------------------------------------------------------- one event

  /** The event is a call of the peer's reconcile, or an edit of the peer. */
  predicate About(e: Event, k: Key) {
    !e.Collect? && !e.ClaimSubnet? && !e.PublishCidr? && e.k == k
  }

  /** The peer, its reconcile and its history are as they were. */
  predicate Same(s: State, t: State, k: Key) {
    Keeps(s.peers, t.peers, k) && Keeps(s.work, t.work, k) && Keeps(s.past, t.past, k)
  }

  predicate Keeps<T(==)>(m: map<Key, T>, n: map<Key, T>, k: Key) { (k in n <==> k in m) && (k in m ==> n[k] == m[k]) }

  lemma OtherDoing(s: State, j: Key, k: Key)
    requires j != k
    ensures forall w :: Same(s, Doing(s, j, w), k)
    ensures forall q, w :: Same(s, Doing(Storing(s, j, q), j, w), k)
    ensures forall q :: Same(s, Storing(s, j, q), k)
  {
    forall q ensures Same(s, Storing(s, j, q), k) { OtherStored(s, j, q, k); }
    forall t, w ensures Same(t, Doing(t, j, w), k) { OtherMoved(t, j, w, k); }
    forall q, w ensures Same(s, Doing(Storing(s, j, q), j, w), k) {
      assert Same(s, Storing(s, j, q), k) && Same(Storing(s, j, q), Doing(Storing(s, j, q), j, w), k);
      hide Doing, Storing;
    }
  }

  lemma OtherStored(s: State, j: Key, q: Peer, k: Key)
    requires j != k
    ensures Same(s, Storing(s, j, q), k)
  {
  }

  lemma OtherMoved(s: State, j: Key, w: Work, k: Key)
    requires j != k
    ensures Same(s, Doing(s, j, w), k)
  {
  }

  lemma OtherEndpoints(s: State, j: Key, k: Key)
    requires j != k
    ensures forall a, w :: Same(s, Doing(Holding(s, j, a), j, w), k)
    ensures forall key, w :: Same(s, Doing(DoCollect(s, key), j, w), k)
  {
  }

  lemma OtherWrite(s: State, j: Key, from: Peer, to: Peer, patch: Patch, k: Key)
    requires j != k && j in s.peers
    ensures Same(s, DoWrite(s, j, from, to, patch), k)
  {
    OtherDoing(s, j, k);
    hide Same, Doing, Storing, MergeMeta, MergeStatus;
  }

  lemma OtherMetas(c: Config, s: State, j: Key, copy: Peer, base: Addr, patch: Patch, k: Key)
    requires j != k && j in s.peers
    ensures copy.specNet.Some? ==> Same(s, DoLabel(c, s, j, copy, base, patch), k)
    ensures Same(s, DoUnlabel(s, j, copy, patch), k)
  {
    OtherDoing(s, j, k);
    hide Same, Doing, Storing, MergeMeta, Labelled, Unlabelled, NetworkLabels;
  }

  lemma OtherStatuses(s: State, j: Key, copy: Peer, a: Addr, patch: Patch, k: Key)
    requires j != k && j in s.peers
    ensures Same(s, DoRecord(s, j, copy, a, patch), k) && Same(s, DoClear(s, j, copy, patch), k)
  {
    OtherDoing(s, j, k);
    hide Same, Doing, Storing, MergeStatus;
  }

  lemma OtherList(s: State, j: Key, copy: Peer, base: Addr, listed: seq<Listed>, k: Key)
    requires j != k
    ensures Same(s, DoList(s, j, copy, base, listed), k)
  {
    OtherDoing(s, j, k);
    hide Same, Doing, OwnListed, ListedNames, HostLow;
  }

  lemma OtherRelease(s: State, j: Key, copy: Peer, reachable: bool, k: Key)
    requires j != k
    ensures Same(s, DoRelease(s, j, copy, reachable), k)
  {
    OtherDoing(s, j, k);
    OtherEndpoints(s, j, k);
    hide Same, Doing, DoCollect, IpName;
  }

  lemma OtherTry(c: Config, s: State, j: Key, copy: Peer, base: Addr, next: int, used: set<string>, reachable: bool,
                 k: Key)
    requires c.Valid() && j != k
    ensures Same(s, DoTry(c, s, j, copy, base, next, used, reachable), k)
  {
    OtherDoing(s, j, k);
    OtherEndpoints(s, j, k);
    hide Same, Doing, Holding, IpName, HostHigh;
  }

  lemma OtherEdits(s: State, j: Key, specNet: Option<string>, labels: Labels, copy: Peer, read: NetworkRead, k: Key)
    requires j != k
    ensures Same(s, DoCreate(s, j, specNet, labels), k) && Same(s, DoBegin(s, j, copy, read), k)
    ensures j in s.peers ==> Same(s, DoEdit(s, j, specNet, labels), k)
    ensures Same(s, Doing(s, j, Idle), k)
  {
    OtherDoing(s, j, k);
    hide Same, Doing, Storing, Start;
  }

  lemma OtherObjects(s: State, key: EndpointKey, n: Key, base: Addr, patch: Patch, k: Key)
    ensures Same(s, DoCollect(s, key), k) && Same(s, DoClaim(s, n, base), k)
    ensures n in s.claims ==> Same(s, DoPublish(s, n, patch), k)
  {
    hide SubnetName;
  }

  lemma OtherEvents(c: Config, s: State, e: Event, k: Key)
    requires c.Valid() && Enabled(c, s, e) && !About(e, k)
    ensures Same(s, Apply(c, s, e), k)
  {
    hide Same, DoWrite, DoLabel, DoList, DoTry, DoRecord, DoRelease, DoUnlabel, DoClear, DoCreate, DoEdit, DoBegin;
    hide DoCollect, DoClaim, DoPublish, Doing, CanCreate, CanClaim;
    match e
    case Create(j, specNet, labels) => OtherEdits(s, j, specNet, labels, Peers.NewPeer(None, map[]), Missing, k);
    case Edit(j, specNet, labels) => OtherEdits(s, j, specNet, labels, Peers.NewPeer(None, map[]), Missing, k);
    case Begin(j, copy, read) => OtherEdits(s, j, None, map[], copy, read, k);
    case Abort(j) => OtherEdits(s, j, None, map[], Peers.NewPeer(None, map[]), Missing, k);
    case Collect(key) => OtherObjects(s, key, k, 0, Applied, k);
    case ClaimSubnet(n, _, base) => OtherObjects(s, EndpointKey("", ""), n, base, Applied, k);
    case PublishCidr(n, patch) => OtherObjects(s, EndpointKey("", ""), n, 0, patch, k);
    case Write(j, patch) => OtherWrite(s, j, s.work[j].from, s.work[j].to, patch, k);
    case Label(j, patch) => OtherMetas(c, s, j, s.work[j].copy, s.work[j].base, patch, k);
    case Record(j, patch) => OtherStatuses(s, j, s.work[j].copy, s.work[j].claimed, patch, k);
    case Unlabel(j, patch) => OtherMetas(c, s, j, s.work[j].copy, 0, patch, k);
    case Clear(j, patch) => OtherStatuses(s, j, s.work[j].copy, 0, patch, k);
    case List(j, listed) => OtherList(s, j, s.work[j].copy, s.work[j].base, listed, k);
    case Release(j, reachable) => OtherRelease(s, j, s.work[j].copy, reachable, k);
    case Try(j, reachable) =>
      OtherTry(c, s, j, s.work[j].copy, s.work[j].base, s.work[j].next, s.work[j].used, reachable, k);
  }

  lemma OwnEvent(c: Config, s: State, e: Event, k: Key, p: Peer, calm: bool)
    requires c.Valid() && Enabled(c, s, e) && About(e, k) && LeftAlone(s, e, k)
    requires InFlight(s, k) && Underway(c.digest, p, s.peers[k], s.work[k], calm)
    requires calm ==> Succeeds(c, s, e, k)
    ensures Moved(c.digest, p, Apply(c, s, e), k, calm)
  {
    hide Moved, DoWrite, DoLabel, DoList, DoTry, DoRecord, DoRelease, DoUnlabel, DoClear, HostHigh;
    var w := s.work[k];
    match e
    case Write(_, patch) => WriteMoves(c.digest, s, k, p, w.to, patch, calm);
    case Label(_, patch) => LabelMoves(c, s, k, p, w.base, patch, calm);
    case List(_, listed) => ListMoves(c, s, k, p, w.base, listed, calm);
    case Try(_, reachable) => TryMoves(c, s, k, p, w.base, w.next, w.used, reachable, calm);
    case Record(_, patch) => RecordMoves(c, s, k, p, w.claimed, patch, calm);
    case Release(_, reachable) => ReleaseMoves(c, s, k, p, reachable, calm);
    case Unlabel(_, patch) => UnlabelMoves(c, s, k, p, patch, calm);
    case Clear(_, patch) => ClearMoves(c, s, k, p, w.copy, patch, calm);
    case _ =>
  }

  // ---------------------------------------------------------------- runs

  /** The answers of finitely many rounds, calm ever after. */
  function Answers(envs: seq<Env>): nat -> Env { (i: nat) => if i < |envs| then envs[i] else CALM }

  predicate AllQuiet(envs: seq<Env>, target: Option<string>) {
    forall env | env in envs :: env.Quiet(target)
  }

  /** The peer after the rounds that were answered so. */
  function After(digest: Digest, p: Peer, envs: seq<Env>): Peer { Rounds(digest, p, Answers(envs), |envs|) }

  lemma {:induction false} SameRounds(digest: Digest, p: Peer, a: nat -> Env, b: nat -> Env, n: nat)
    requires forall i: nat | i < n :: a(i) == b(i)
    ensures Rounds(digest, p, a, n) == Rounds(digest, p, b, n)
  {
    hide Reconciled;
    if n > 0 {
      SameRounds(digest, p, a, b, n - 1);
    }
  }

  lemma OneMore(digest: Digest, p: Peer, envs: seq<Env>, env: Env)
    ensures After(digest, p, envs + [env]) == Reconciled(digest, After(digest, p, envs), env)
  {
    hide Reconciled;
    SameRounds(digest, p, Answers(envs), Answers(envs + [env]), |envs|);
  }

  lemma SpecStays(digest: Digest, p: Peer, env: Env)
    ensures Reconciled(digest, p, env).specNet == p.specNet
  {
    hide LeftNetwork, JoinedNetwork;
    match Decide(p)
    case Leave => LeftSpec(p, env);
    case Join => JoinedSpec(digest, p, env);
    case _ =>
  }

  lemma PatchedSpec(p: Peer, to: Peer, patch: Patch)
    requires to.specNet == p.specNet
    ensures Patched(p, to, patch).specNet == p.specNet
  {
  }

  lemma LeftSpec(p: Peer, env: Env)
    ensures LeftNetwork(p, env).specNet == p.specNet
  {
    var q := Patched(p, Unlabelled(p), env.spec);
    PatchedSpec(p, Unlabelled(p), env.spec);
    PatchedSpec(q, Cleared(q), env.status);
    PatchedSpec(p, p.(phase := Failed), env.status);
    hide NetworkLabels, Unlabelled, Patched, Cleared;
  }

  /** The first call of a reconcile in the interleaved system is the one that the handlers make with the same answer to
      their reads, and there is none exactly when they would write nothing. */
  lemma StartAgrees(digest: Digest, p: Peer, env: Env)
    ensures match Start(p, env.network)
      case Idle => Reconciled(digest, p, env) == p
      case Patching(from, to) =>
        && from == p && to != p
        && (env.spec == Applied && env.status == Applied ==> Reconciled(digest, p, env) == to)
      case Labelling(copy, base) =>
        && copy == p && p.specNet.Some? && env.network == Cidr(base)
        && Reconciled(digest, p, env) == JoinedNetwork(digest, p, env)
      case Releasing(copy) => copy == p && Reconciled(digest, p, env) == LeftNetwork(p, env)
      case _ => false
  {
    hide Labelled, Unlabelled, SameOwnLabels, NetworkLabels;
  }

  lemma JoinedKeeps(p: Peer, a: Addr)
    ensures Joined(p, a).specNet == p.specNet
  {
  }

  lemma JoinedSpec(digest: Digest, p: Peer, env: Env)
    requires p.specNet.Some?
    ensures JoinedNetwork(digest, p, env).specNet == p.specNet
  {
    hide NetworkLabels, Labelled, Patched, Joined, SameOwnLabels, NetworkLabelKey;
    PatchedSpec(p, p.(phase := Failed), env.status);
    assert Labelled(digest, p).specNet == p.specNet;
    if env.address.Some? {
      assert Joined(p, env.address.value).specNet == p.specNet by { JoinedKeeps(p, env.address.value); }
      PatchedSpec(p, Joined(p, env.address.value), env.status);
    }
  }

  /** After m begun reconciles: m rounds of the handlers, the last of which may be underway. */
  ghost predicate AtRound(digest: Digest, p: Peer, m: nat, q: Peer, w: Work, calm: bool) {
    exists envs: seq<Env> :: IsAfter(digest, p, m, q, w, calm, envs)
  }

  ghost predicate IsAfter(digest: Digest, p: Peer, m: nat, q: Peer, w: Work, calm: bool, envs: seq<Env>) {
    && (calm ==> AllQuiet(envs, p.specNet)) && After(digest, p, envs).specNet == p.specNet
    && if w == Idle then |envs| == m && q == After(digest, p, envs)
       else |envs| + 1 == m && Underway(digest, After(digest, p, envs), q, w, calm)
  }

  /** A reconcile that has progressed from the m-th round's result. */
  lemma NextRound(digest: Digest, p: Peer, envs: seq<Env>, q: Peer, w: Work, calm: bool)
    requires (calm ==> AllQuiet(envs, p.specNet)) && After(digest, p, envs).specNet == p.specNet
    requires Progress(digest, After(digest, p, envs), q, w, calm)
    ensures AtRound(digest, p, |envs| + 1, q, w, calm)
  {
    hide Reconciled, After, Underway;
    var r := After(digest, p, envs);
    if w == Idle {
      var env: Env :| q == Reconciled(digest, r, env) && (calm ==> env.Quiet(r.specNet));
      OneMore(digest, p, envs, env);
      SpecStays(digest, r, env);
      assert IsAfter(digest, p, |envs| + 1, q, w, calm, envs + [env]);
    } else {
      assert IsAfter(digest, p, |envs| + 1, q, w, calm, envs);
    }
  }

  function Begun(events: seq<Event>, k: Key): nat {
    if events == [] then 0
    else Begun(events[..|events| - 1], k) + if IsBegin(events[|events| - 1], k) then 1 else 0
  }

  predicate IsBegin(e: Event, k: Key) { e.Begin? && e.k == k }

  lemma EventMoves(c: Config, s: State, e: Event, k: Key, p: Peer, m: nat, calm: bool)
    requires c.Valid() && Enabled(c, s, e) && LeftAlone(s, e, k) && (calm ==> Succeeds(c, s, e, k))
    requires InFlight(s, k) && AtRound(c.digest, p, m, s.peers[k], s.work[k], calm)
    ensures var t := Apply(c, s, e);
      && InFlight(t, k)
      && AtRound(c.digest, p, m + (if IsBegin(e, k) then 1 else 0), t.peers[k], t.work[k], calm)
  {
    hide Reconciled, After, Underway, Moved, AllQuiet;
    if !About(e, k) {
      OtherEvents(c, s, e, k);
    } else {
      var envs :| IsAfter(c.digest, p, m, s.peers[k], s.work[k], calm, envs);
      if IsBegin(e, k) {
        BeginMoves(c.digest, s.peers[k], e.read, calm);
        Goes(c.digest, s.peers[k], s, k, Start(e.copy, e.read), calm);
      } else {
        OwnEvent(c, s, e, k, After(c.digest, p, envs), calm);
      }
      var t := Apply(c, s, e);
      MovedIs(c.digest, After(c.digest, p, envs), t, k, calm);
      NextRound(c.digest, p, envs, t.peers[k], t.work[k], calm);
    }
  }

  lemma MovedIs(digest: Digest, p: Peer, t: State, k: Key, calm: bool)
    requires Moved(digest, p, t, k, calm)
    ensures InFlight(t, k) && Progress(digest, p, t.peers[k], t.work[k], calm)
  {
    hide Progress;
  }

  // ---------------------------------------------------------------- the theorems

  ghost predicate IsStretch(c: Config, states: seq<State>, events: seq<Event>)
    requires c.Valid()
  {
    |states| == |events| + 1 && forall i :: 0 <= i < |events| ==> Next(c, states[i], events[i], states[i + 1])
  }

  ghost predicate Alone(c: Config, states: seq<State>, events: seq<Event>, k: Key, calm: bool)
    requires c.Valid() && |states| == |events| + 1
  {
    forall i :: 0 <= i < |events| ==>
      LeftAlone(states[i], events[i], k) && (calm ==> Succeeds(c, states[i], events[i], k))
  }

  lemma {:induction false} StretchMoves(c: Config, states: seq<State>, events: seq<Event>, k: Key, calm: bool)
    requires c.Valid() && IsStretch(c, states, events) && Alone(c, states, events, k, calm)
    requires InFlight(states[0], k) && states[0].work[k] == Idle
    ensures var t := states[|events|];
      InFlight(t, k) && AtRound(c.digest, states[0].peers[k], Begun(events, k), t.peers[k], t.work[k], calm)
    decreases |events|
  {
    hide LeftAlone, Succeeds, IsAfter, Apply, Enabled;
    var n := |events|;
    if n == 0 {
      NoRounds(c.digest, states[0].peers[k], calm);
    } else {
      StretchMoves(c, states[..n], events[..n - 1], k, calm);
      assert Next(c, states[n - 1], events[n - 1], states[n]) && LeftAlone(states[n - 1], events[n - 1], k);
      EventMoves(c, states[n - 1], events[n - 1], k, states[0].peers[k], Begun(events[..n - 1], k), calm);
    }
  }

  lemma NoRounds(digest: Digest, p: Peer, calm: bool)
    ensures AtRound(digest, p, 0, p, Idle, calm)
  {
    assert IsAfter(digest, p, 0, p, Idle, calm, []);
  }

  /** However its reconciles are interleaved with those of every other peer and network: while nobody edits it
      and none is cut off, a peer that is idle again is what as many rounds of the handlers made of it. */
  lemma ReconcilesAreRounds(c: Config, states: seq<State>, events: seq<Event>, k: Key)
    requires c.Valid() && IsStretch(c, states, events) && Alone(c, states, events, k, false)
    requires InFlight(states[0], k) && states[0].work[k] == Idle
    ensures InFlight(states[|events|], k)
    ensures states[|events|].work[k] == Idle ==> exists envs: seq<Env> ::
      |envs| == Begun(events, k) && states[|events|].peers[k] == After(c.digest, states[0].peers[k], envs)
  {
    hide LeftAlone, Succeeds, After, Next;
    StretchMoves(c, states, events, k, false);
  }

  /** When moreover none of the peer's calls fails, a peer that starts in its target network without being Ready
      never settles, and any other is settled whenever it is idle after seven reconciles or more. */
  lemma SettlesInEveryInterleaving(c: Config, states: seq<State>, events: seq<Event>, k: Key)
    requires c.Valid() && IsStretch(c, states, events) && Alone(c, states, events, k, true)
    requires InFlight(states[0], k) && states[0].work[k] == Idle
    ensures InFlight(states[|events|], k)
    ensures states[|events|].work[k] == Idle ==>
      if Stuck(states[0].peers[k]) then !Settled(states[|events|].peers[k])
      else Begun(events, k) >= MAX_ROUNDS ==> Settled(states[|events|].peers[k])
  {
    hide LeftAlone, Succeeds, After, Next, Stuck, Settled, AllQuiet;
    StretchMoves(c, states, events, k, true);
    var p, t := states[0].peers[k], states[|events|];
    if t.work[k] == Idle {
      var envs :| IsAfter(c.digest, p, Begun(events, k), t.peers[k], Idle, true, envs);
      SettledAfter(c.digest, p, envs);
    }
  }

  lemma SettledAfter(digest: Digest, p: Peer, envs: seq<Env>)
    requires AllQuiet(envs, p.specNet)
    ensures if Stuck(p) then !Settled(After(digest, p, envs))
      else |envs| >= MAX_ROUNDS ==> Settled(After(digest, p, envs))
  {
    hide Reconciled, Stuck, Settled;
    QuietAnswers(envs, p.specNet);
    ConvergesUnlessStuck(digest, p, Answers(envs));
    var n := |envs|;
    assert Stuck(p) ==> !Settled(Rounds(digest, p, Answers(envs), n));
    assert !Stuck(p) && n >= MAX_ROUNDS ==> Settled(Rounds(digest, p, Answers(envs), n));
  }

  lemma QuietAnswers(envs: seq<Env>, target: Option<string>)
    requires AllQuiet(envs, target)
    ensures forall i: nat :: Answers(envs)(i).Quiet(target)
  {
    forall i: nat ensures Answers(envs)(i).Quiet(target) {
      assert i < |envs| ==> envs[i] in envs;
    }
  }
}
