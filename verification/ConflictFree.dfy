/** Conflict-free address allocation: in every run of interleaved network and peer reconciles, with
    stale lists and reads, lost patches and cut-off reconciles, no two live endpoints of the whole
    cluster carry the same address. */
module ConflictFree {
  import opened Prelude
  import opened Ipv4
  import opened Ipam
  import opened KeyNames
  import opened Peers
  import opened ControlPlane

  /** The subnet an address belongs to. */
  function Home(c: Config, a: Addr): Addr
    requires c.Valid()
  {
    Masked(a, c.pool.subnetMask)
  }

  type Winners = map<Addr, Key>

  predicate WonBy(winners: Winners, base: Addr, n: Key) {
    base in winners && winners[base] == n
  }

  predicate WonIn(winners: Winners, base: Addr, ns: string) {
    base in winners && winners[base].ns == ns
  }

  /** Every subnet some network has won is a subnet of the pool and still has its object. */
  predicate WinnersOk(c: Config, subnets: map<string, Addr>, winners: Winners)
    requires c.Valid()
  {
    forall b: Addr | b in winners :: c.pool.IsSubnet(b) && SubnetName(b) in subnets
  }

  /** What a network claims or has published it has won itself. */
  predicate ClaimsOk(winners: Winners, claims: map<Key, Addr>) {
    forall n | n in claims :: WonBy(winners, claims[n], n)
  }

  ghost predicate PublishedOk(winners: Winners, published: map<Key, set<Addr>>) {
    forall n, b: Addr | n in published && b in published[n] :: WonBy(winners, b, n)
  }

  /** A reconcile only ever tries hosts of a subnet won in its own namespace. */
  predicate WorkOk(winners: Winners, k: Key, w: Work) {
    && (w.Labelling? || w.Listing? || w.Scanning? ==> WonIn(winners, w.base, k.ns))
    && (w.Scanning? ==> w.base + 2 <= w.next)
  }

  predicate WorksOk(winners: Winners, work: map<Key, Work>) {
    forall k | k in work :: WorkOk(winners, k, work[k])
  }

  predicate EndpointOk(c: Config, winners: Winners, key: EndpointKey, e: Endpoint)
    requires c.Valid()
  {
    key.name == IpName(e.address) && WonIn(winners, Home(c, e.address), key.namespace)
  }

  predicate EndpointsOk(c: Config, winners: Winners, endpoints: Endpoints)
    requires c.Valid()
  {
    forall key | key in endpoints :: EndpointOk(c, winners, key, endpoints[key])
  }

  ghost predicate Inv(c: Config, s: State)
    requires c.Valid()
  {
    && WinnersOk(c, s.subnets, s.winners)
    && ClaimsOk(s.winners, s.claims)
    && PublishedOk(s.winners, s.published)
    && WorksOk(s.winners, s.work)
    && EndpointsOk(c, s.winners, s.endpoints)
  }

  ghost predicate AddressesDistinct(endpoints: Endpoints) {
    forall x, y | x in endpoints && y in endpoints && x != y :: endpoints[x].address != endpoints[y].address
  }

  lemma InvGivesDistinct(c: Config, winners: Winners, endpoints: Endpoints)
    requires c.Valid() && EndpointsOk(c, winners, endpoints)
    ensures AddressesDistinct(endpoints)
  {
    hide IpName, Home;
    forall x, y | x in endpoints && y in endpoints && x != y
      ensures endpoints[x].address != endpoints[y].address
    {
      assert EndpointOk(c, winners, x, endpoints[x]) && EndpointOk(c, winners, y, endpoints[y]);
    }
  }

  /** The hosts of a subnet have that subnet as their home. */
  lemma HostHome(c: Config, base: Addr, a: int)
    requires c.Valid() && c.pool.IsSubnet(base)
    requires base + 2 <= a <= HostHigh(base, c.pool.subnetMask)
    ensures 0 <= a < TWO32 && Home(c, a) == base
  {
    var m := c.pool.subnetMask;
    HostRange(base, m);
    assert SameBlock(base, a, m);
    DivParts(a, BlockSize(m));
    DivParts(base, BlockSize(m));
  }

  // ---------------------------------------------------------------- one event

  predicate Grows(winners: Winners, more: Winners) {
    forall b: Addr | b in winners :: b in more && more[b] == winners[b]
  }

  lemma WorksStayOk(winners: Winners, more: Winners, work: map<Key, Work>)
    requires Grows(winners, more) && WorksOk(winners, work)
    ensures WorksOk(more, work)
  {
    forall k | k in work ensures WorkOk(more, k, work[k]) {
      assert WorkOk(winners, k, work[k]);
    }
  }

  lemma EndpointsStayOk(c: Config, winners: Winners, more: Winners, endpoints: Endpoints)
    requires c.Valid() && Grows(winners, more) && EndpointsOk(c, winners, endpoints)
    ensures EndpointsOk(c, more, endpoints)
  {
    hide IpName, Home;
    forall key | key in endpoints ensures EndpointOk(c, more, key, endpoints[key]) {
      assert EndpointOk(c, winners, key, endpoints[key]);
    }
  }

  lemma PublishedStaysOk(winners: Winners, more: Winners, published: map<Key, set<Addr>>)
    requires Grows(winners, more) && PublishedOk(winners, published)
    ensures PublishedOk(more, published)
  {
    forall n, b: Addr | n in published && b in published[n] ensures WonBy(more, b, n) {
      assert WonBy(winners, b, n);
    }
  }

  lemma WinnersStayOk(c: Config, s: State, n: Key, base: Addr)
    requires c.Valid() && WinnersOk(c, s.subnets, s.winners) && ClaimsOk(s.winners, s.claims)
    requires c.pool.IsSubnet(base) && SubnetName(base) !in s.subnets
    ensures WinnersOk(c, s.subnets[SubnetName(base) := base], s.winners[base := n])
    ensures ClaimsOk(s.winners[base := n], s.claims[n := base])
    ensures Grows(s.winners, s.winners[base := n])
  {
    hide SubnetName, Pool.IsSubnet;
    assert base !in s.winners;
    forall m | m in s.claims && m != n ensures WonBy(s.winners[base := n], s.claims[m], m) {
      assert WonBy(s.winners, s.claims[m], m);
    }
  }

  /** Winning one more subnet takes nothing away from anyone. */
  lemma NewWinner(c: Config, s: State, n: Key, base: Addr)
    requires c.Valid() && Inv(c, s) && c.pool.IsSubnet(base) && SubnetName(base) !in s.subnets
    ensures Inv(c, DoClaim(s, n, base))
  {
    hide SubnetName, Pool.IsSubnet, WinnersOk, ClaimsOk, PublishedOk, WorksOk, EndpointsOk, Grows;
    var more := s.winners[base := n];
    WinnersStayOk(c, s, n, base);
    WorksStayOk(s.winners, more, s.work);
    EndpointsStayOk(c, s.winners, more, s.endpoints);
    PublishedStaysOk(s.winners, more, s.published);
  }

  lemma PublishKeepsInv(c: Config, s: State, n: Key, patch: Patch)
    requires c.Valid() && Inv(c, s) && n in s.claims
    ensures Inv(c, DoPublish(s, n, patch))
  {
    hide WinnersOk, WorksOk, EndpointsOk;
    assert WonBy(s.winners, s.claims[n], n);
  }

  /** A reconcile moves on without leaving its subnet. */
  lemma MoveOn(c: Config, s: State, k: Key, w: Work)
    requires c.Valid() && Inv(c, s) && WorkOk(s.winners, k, w)
    ensures Inv(c, Doing(s, k, w))
  {
    hide WinnersOk, ClaimsOk, PublishedOk, EndpointsOk, WorkOk;
  }

  /** The same, with a new version of the peer stored. */
  lemma StoreAndMoveOn(c: Config, s: State, k: Key, p: Peer, w: Work)
    requires c.Valid() && Inv(c, s) && WorkOk(s.winners, k, w)
    ensures Inv(c, Doing(Storing(s, k, p), k, w))
  {
    hide WinnersOk, ClaimsOk, PublishedOk, EndpointsOk, WorksOk;
    MoveOn(c, s, k, w);
  }

  lemma DropEndpoint(c: Config, s: State, key: EndpointKey)
    requires c.Valid() && Inv(c, s)
    ensures Inv(c, DoCollect(s, key))
  {
    hide WinnersOk, ClaimsOk, PublishedOk, EndpointOk, WorksOk;
  }

  lemma AddEndpoint(c: Config, s: State, k: Key, a: Addr)
    requires c.Valid() && Inv(c, s) && WonIn(s.winners, Home(c, a), k.ns)
    ensures Inv(c, Holding(s, k, a))
  {
    hide WinnersOk, ClaimsOk, PublishedOk, WorksOk, IpName, Home;
  }

  lemma CurrentWorkOk(c: Config, s: State, k: Key)
    requires c.Valid() && Inv(c, s) && InFlight(s, k)
    ensures WorkOk(s.winners, k, s.work[k])
  {
    hide WinnersOk, ClaimsOk, PublishedOk, EndpointsOk, WorkOk;
  }

  /** The candidate a reconcile is at, when its loop still runs, lies at home in its subnet. */
  lemma CandidateHome(c: Config, s: State, base: Addr, a: int)
    requires c.Valid() && Inv(c, s) && base in s.winners
    requires base + 2 <= a <= HostHigh(base, c.pool.subnetMask)
    ensures 0 <= a < TWO32 && Home(c, a) == base
  {
    hide Pool.IsSubnet, HostHigh, Home, EndpointsOk, ClaimsOk, PublishedOk, SubnetName, WorksOk;
    HostHome(c, base, a);
  }

  lemma CreateKeepsInv(c: Config, s: State, k: Key, copy: Peer, a: Addr)
    requires c.Valid() && Inv(c, s) && WonIn(s.winners, Home(c, a), k.ns)
    ensures Inv(c, Doing(Holding(s, k, a), k, Recording(copy, a)))
  {
    hide Inv, Doing, IpName, Home;
    AddEndpoint(c, s, k, a);
    MoveOn(c, Holding(s, k, a), k, Recording(copy, a));
  }

  lemma TryKeepsInv(c: Config, s: State, k: Key, copy: Peer, base: Addr, next: int, used: set<string>, reachable: bool)
    requires c.Valid() && Inv(c, s) && WorkOk(s.winners, k, Scanning(copy, base, next, used))
    ensures Inv(c, DoTry(c, s, k, copy, base, next, used, reachable))
  {
    hide Inv, Doing, Holding, IpName, Home, HostHigh;
    MoveOn(c, s, k, Failing(copy));
    MoveOn(c, s, k, Scanning(copy, base, next + 1, used));
    if 0 <= next <= HostHigh(base, c.pool.subnetMask) {
      CandidateHome(c, s, base, next);
      CreateKeepsInv(c, s, k, copy, next);
    }
  }

  lemma BeginKeepsInv(c: Config, s: State, k: Key, copy: Peer, read: NetworkRead)
    requires c.Valid() && Inv(c, s) && CanBegin(s, k, copy, read)
    ensures Inv(c, DoBegin(s, k, copy, read))
  {
    hide WinnersOk, ClaimsOk, EndpointsOk, WorksOk;
    if read.Cidr? {
      assert WonBy(s.winners, read.base, Key(k.ns, copy.specNet.value));
    }
    MoveOn(c, s, k, Start(copy, read));
  }

  lemma FirstCandidate(c: Config, s: State, base: Addr)
    requires c.Valid() && Inv(c, s) && base in s.winners
    ensures HostLow(base) == base + 2
  {
    hide Home, EndpointsOk, ClaimsOk, PublishedOk, SubnetName, WorksOk;
    HostRange(base, c.pool.subnetMask);
  }

  lemma ListKeepsInv(c: Config, s: State, k: Key, copy: Peer, base: Addr, listed: seq<Listed>)
    requires c.Valid() && Inv(c, s) && WorkOk(s.winners, k, Listing(copy, base))
    ensures Inv(c, DoList(s, k, copy, base, listed))
  {
    hide Inv, Doing, HostLow, OwnListed, ListedNames;
    FirstCandidate(c, s, base);
    match OwnListed(listed, k.name)
    case Some(a) => MoveOn(c, s, k, Recording(copy, a));
    case None => MoveOn(c, s, k, Scanning(copy, base, HostLow(base), ListedNames(listed)));
  }

  lemma LabelKeepsInv(c: Config, s: State, k: Key, copy: Peer, base: Addr, patch: Patch)
    requires c.Valid() && Inv(c, s) && k in s.peers && copy.specNet.Some?
    requires WorkOk(s.winners, k, Labelling(copy, base))
    ensures Inv(c, DoLabel(c, s, k, copy, base, patch))
  {
    hide Inv, Doing, Storing, Labelled, MergeMeta, NetworkLabels;
    MoveOn(c, s, k, Listing(copy, base));
    MoveOn(c, s, k, Failing(copy));
    StoreAndMoveOn(c, s, k, MergeMeta(s.peers[k], copy, Labelled(c.digest, copy)), Idle);
  }

  lemma WriteKeepsInv(c: Config, s: State, k: Key, from: Peer, to: Peer, patch: Patch)
    requires c.Valid() && Inv(c, s) && k in s.peers
    ensures Inv(c, DoWrite(s, k, from, to, patch))
  {
    hide Inv, Doing, Storing, MergeMeta, MergeStatus;
    MoveOn(c, s, k, Idle);
    MoveOn(c, s, k, Patching(from, from.(phase := Pending)));
    StoreAndMoveOn(c, s, k, to, Idle);
    StoreAndMoveOn(c, s, k, MergeMeta(MergeStatus(s.peers[k], from, to), from, to), Idle);
  }

  lemma RecordKeepsInv(c: Config, s: State, k: Key, copy: Peer, a: Addr, patch: Patch)
    requires c.Valid() && Inv(c, s) && k in s.peers
    ensures Inv(c, DoRecord(s, k, copy, a, patch))
  {
    hide Inv, Doing, Storing, MergeStatus, Joined;
    MoveOn(c, s, k, Idle);
    StoreAndMoveOn(c, s, k, MergeStatus(s.peers[k], copy, Joined(copy, a)), Idle);
  }

  lemma ReleaseKeepsInv(c: Config, s: State, k: Key, copy: Peer, reachable: bool)
    requires c.Valid() && Inv(c, s)
    ensures Inv(c, DoRelease(s, k, copy, reachable))
  {
    hide Inv, Doing, IpName, DoCollect;
    MoveOn(c, s, k, Idle);
    MoveOn(c, s, k, Unlabelling(copy));
    if copy.address.Some? {
      var key := EndpointKey(k.ns, IpName(copy.address.value));
      DropEndpoint(c, s, key);
      MoveOn(c, DoCollect(s, key), k, Unlabelling(copy));
    }
  }

  lemma UnlabelKeepsInv(c: Config, s: State, k: Key, copy: Peer, patch: Patch)
    requires c.Valid() && Inv(c, s) && k in s.peers
    ensures Inv(c, DoUnlabel(s, k, copy, patch))
  {
    hide Inv, Doing, Storing, Unlabelled, MergeMeta, NetworkLabels;
    MoveOn(c, s, k, Clearing(copy));
    MoveOn(c, s, k, Failing(copy));
    StoreAndMoveOn(c, s, k, MergeMeta(s.peers[k], copy, Unlabelled(copy)), Clearing(Unlabelled(copy)));
  }

  lemma ClearKeepsInv(c: Config, s: State, k: Key, copy: Peer, patch: Patch)
    requires c.Valid() && Inv(c, s) && k in s.peers
    ensures Inv(c, DoClear(s, k, copy, patch))
  {
    hide Inv, Doing, Storing, MergeStatus, Cleared;
    MoveOn(c, s, k, Idle);
    StoreAndMoveOn(c, s, k, MergeStatus(s.peers[k], copy, Cleared(copy)), Idle);
  }

  lemma EditKeepsInv(c: Config, s: State, k: Key, p: Peer)
    requires c.Valid() && Inv(c, s)
    ensures Inv(c, Storing(s, k, p))
  {
    hide WinnersOk, ClaimsOk, PublishedOk, EndpointsOk, WorksOk;
  }

  lemma StepKeepsInv(c: Config, s: State, e: Event)
    requires c.Valid() && Inv(c, s) && Enabled(c, s, e)
    ensures Inv(c, Apply(c, s, e))
  {
    hide Inv, DoTry, DoList, DoLabel, DoBegin, DoPublish, DoClaim, DoWrite, DoRecord, DoRelease, DoUnlabel, DoClear,
         DoCollect, CanClaim, CanBegin, Storing, Doing, HasPrefix;
    match e
    case Create(k, specNet, labels) => StoreAndMoveOn(c, s, k, Peers.NewPeer(specNet, labels), Idle);
    case Edit(k, specNet, labels) => EditKeepsInv(c, s, k, s.peers[k].(specNet := specNet, labels := labels));
    case Collect(key) => DropEndpoint(c, s, key);
    case ClaimSubnet(n, names, base) => ClaimKeepsInv(c, s, n, names, base);
    case PublishCidr(n, patch) => PublishKeepsInv(c, s, n, patch);
    case Begin(k, copy, read) => BeginKeepsInv(c, s, k, copy, read);
    case _ => WorkStepKeepsInv(c, s, e);
  }

  lemma WorkStepKeepsInv(c: Config, s: State, e: Event)
    requires c.Valid() && Inv(c, s) && Enabled(c, s, e)
    requires !e.Create? && !e.Edit? && !e.Collect? && !e.ClaimSubnet? && !e.PublishCidr? && !e.Begin?
    ensures Inv(c, Apply(c, s, e))
  {
    hide Inv, DoTry, DoList, DoLabel, DoWrite, DoRecord, DoRelease, DoUnlabel, DoClear, Doing;
    var w := s.work[e.k];
    CurrentWorkOk(c, s, e.k);
    match e
    case Write(k, patch) => WriteKeepsInv(c, s, k, w.from, w.to, patch);
    case Label(k, patch) => LabelKeepsInv(c, s, k, w.copy, w.base, patch);
    case List(k, listed) => ListKeepsInv(c, s, k, w.copy, w.base, listed);
    case Try(k, reachable) => TryKeepsInv(c, s, k, w.copy, w.base, w.next, w.used, reachable);
    case Record(k, patch) => RecordKeepsInv(c, s, k, w.copy, w.claimed, patch);
    case Release(k, reachable) => ReleaseKeepsInv(c, s, k, w.copy, reachable);
    case Unlabel(k, patch) => UnlabelKeepsInv(c, s, k, w.copy, patch);
    case Clear(k, patch) => ClearKeepsInv(c, s, k, w.copy, patch);
    case Abort(k) => MoveOn(c, s, k, Idle);
  }

  lemma ClaimKeepsInv(c: Config, s: State, n: Key, names: seq<string>, base: Addr)
    requires c.Valid() && Inv(c, s) && CanClaim(c, s, n, names, base)
    ensures Inv(c, DoClaim(s, n, base))
  {
    hide Inv, SubnetName, Pool.IsSubnet;
    if SubnetName(base) !in s.subnets {
      NewWinner(c, s, n, base);
    }
  }

  // ---------------------------------------------------------------- whole runs

  lemma {:induction false} RunKeepsInv(c: Config, states: seq<State>, events: seq<Event>, i: nat)
    requires c.Valid() && IsRun(c, states, events) && i < |states|
    ensures Inv(c, states[i])
  {
    if i > 0 {
      RunKeepsInv(c, states, events, i - 1);
      assert Next(c, states[i - 1], events[i - 1], states[i - 1 + 1]);
      StepKeepsInv(c, states[i - 1], events[i - 1]);
    }
  }

  /** All live endpoints in all namespaces have pairwise distinct addresses, at every point of every
      run. */
  lemma ConflictFreeAllocation(c: Config, states: seq<State>, events: seq<Event>, i: nat)
    requires c.Valid() && IsRun(c, states, events) && i < |states|
    ensures AddressesDistinct(states[i].endpoints)
  {
    RunKeepsInv(c, states, events, i);
    InvGivesDistinct(c, states[i].winners, states[i].endpoints);
  }

  /** At every point of every run, the name of an address is taken in a namespace exactly when an endpoint of that
      namespace has this very address: a free address is never refused on account of another one. */
  lemma NameTakenIffHeld(c: Config, states: seq<State>, events: seq<Event>, i: nat, ns: string, a: Addr)
    requires c.Valid() && IsRun(c, states, events) && i < |states|
    ensures EndpointKey(ns, IpName(a)) in states[i].endpoints <==>
      exists key :: key in states[i].endpoints && key.namespace == ns && states[i].endpoints[key].address == a
  {
    RunKeepsInv(c, states, events, i);
    hide IpName, IsRun;
    var endpoints := states[i].endpoints;
    var mine := EndpointKey(ns, IpName(a));
    if mine in endpoints {
      assert EndpointOk(c, states[i].winners, mine, endpoints[mine]);
      IpNameInjective(endpoints[mine].address, a);
    }
    if key :| key in endpoints && key.namespace == ns && endpoints[key].address == a {
      assert EndpointOk(c, states[i].winners, key, endpoints[key]);
      assert key == mine;
    }
  }
}
