/** Network and peer reconciles interleaved over one object store. One event is one call to the API
    server (or one edit from outside); what lies between two calls of a reconcile is its `Work`.
    Lists and reads come from caches, patches can be lost to a swallowed conflict or an error, and a
    reconcile can be cut off at any point. */
module ControlPlane {
  import opened Prelude
  import opened Ipv4
  import opened KeyNames
  import opened Ipam
  import opened Peers

  /** A namespaced peer or network. */
  datatype Key = Key(ns: string, name: string)

  datatype Config = Config(pool: Pool, digest: Digest) {
    /** A pool whose subnets have room for hosts. */
    predicate Valid() { pool.Valid() && pool.subnetMask <= 30 }
  }

  /** What a peer reconcile in flight still has to do. `copy` is its in-memory peer. */
  datatype Work =
    | Idle
    | Patching(from: Peer, to: Peer)
    | Labelling(copy: Peer, base: Addr)
    | Listing(copy: Peer, base: Addr)
    | Scanning(copy: Peer, base: Addr, next: int, used: set<string>)
    | Recording(copy: Peer, claimed: Addr)
    | Releasing(copy: Peer)
    | Unlabelling(copy: Peer)
    | Clearing(copy: Peer)

  datatype State = State(
    subnets: map<string, Addr>,          // LatticeSubnetAllocation objects, by name
    winners: map<Addr, Key>,             // history: the network whose create of that subnet succeeded
    claims: map<Key, Addr>,              // subnets won by a network reconcile and not yet published
    published: map<Key, set<Addr>>,      // history: every ActiveCIDR a network's status has shown
    endpoints: Endpoints,                // LatticeEndpoint objects
    peers: map<Key, Peer>,               // LatticePeer objects
    past: map<Key, set<Peer>>,           // history: every version of a peer that was ever stored
    work: map<Key, Work>)                // at most one reconcile in flight per peer

  datatype Patch = Applied | Conflict | Refused

  datatype NetworkRead = Missing | NotReady | Cidr(base: Addr)

  datatype Event =
    | Create(k: Key, specNet: Option<string>, labels: Labels)
    | Edit(k: Key, specNet: Option<string>, labels: Labels)
    | Collect(key: EndpointKey)
    | ClaimSubnet(n: Key, names: seq<string>, base: Addr)
    | PublishCidr(n: Key, patch: Patch)
    | Begin(k: Key, copy: Peer, read: NetworkRead)
    | Write(k: Key, patch: Patch)
    | Label(k: Key, patch: Patch)
    | List(k: Key, listed: seq<Listed>)
    | Try(k: Key, reachable: bool)
    | Record(k: Key, patch: Patch)
    | Release(k: Key, reachable: bool)
    | Unlabel(k: Key, patch: Patch)
    | Clear(k: Key, patch: Patch)
    | Abort(k: Key)

  const EMPTY := State(map[], map[], map[], map[], map[], map[], map[], map[])

  function Published(s: State, n: Key): set<Addr> {
    if n in s.published then s.published[n] else {}
  }

  predicate InFlight(s: State, k: Key) {
    k in s.peers && k in s.work && k in s.past
  }

  function Doing(s: State, k: Key, w: Work): State {
    s.(work := s.work[k := w])
  }

  function Storing(s: State, k: Key, p: Peer): State {
    s.(peers := s.peers[k := p], past := s.past[k := (if k in s.past then s.past[k] else {}) + {p}])
  }

  function Failing(copy: Peer): Work { Patching(copy, copy.(phase := Failed)) }

  // ---------------------------------------------------------------- edits from outside

  predicate CanCreate(s: State, k: Key, labels: Labels) {
    k !in s.peers && NetworkLabels(labels) == {}
  }

  function DoCreate(s: State, k: Key, specNet: Option<string>, labels: Labels): State {
    Doing(Storing(s, k, Peers.NewPeer(specNet, labels)), k, Idle)
  }

  /** Users change the spec and their own labels, not the network labels. */
  ghost predicate CanEdit(s: State, k: Key, labels: Labels) {
    k in s.peers && forall l | HasPrefix(l, NETWORK_LABEL_PREFIX) ::
      (l in labels <==> l in s.peers[k].labels) && (l in labels ==> labels[l] == s.peers[k].labels[l])
  }

  function DoEdit(s: State, k: Key, specNet: Option<string>, labels: Labels): State
    requires k in s.peers
  {
    Storing(s, k, s.peers[k].(specNet := specNet, labels := labels))
  }

  /** An endpoint is garbage collected. */
  function DoCollect(s: State, key: EndpointKey): State {
    s.(endpoints := s.endpoints - {key})
  }

  // ---------------------------------------------------------------- network reconciles

  /** FindFirstFree over some list, old or new, and one create. */
  ghost predicate CanClaim(c: Config, s: State, n: Key, names: seq<string>, base: Addr)
    requires c.Valid()
  {
    n !in s.claims && LowestFree(c.pool, names, Some(base))
  }

  function DoClaim(s: State, n: Key, base: Addr): State {
    if SubnetName(base) in s.subnets then s
    else s.(subnets := s.subnets[SubnetName(base) := base],
            winners := s.winners[base := n],
            claims := s.claims[n := base])
  }

  function DoPublish(s: State, n: Key, patch: Patch): State
    requires n in s.claims
  {
    var t := s.(claims := s.claims - {n});
    if patch == Applied then t.(published := s.published[n := Published(s, n) + {s.claims[n]}]) else t
  }

  /** A network's status shows another CIDR only when it is the one the network has won and the patch goes through. */
  lemma ShownIff(s: State, n: Key, patch: Patch, m: Key, base: Addr)
    requires n in s.claims
    ensures base in Published(DoPublish(s, n, patch), m) <==>
      base in Published(s, m) || (m == n && patch == Applied && base == s.claims[n])
  {
  }

  // ---------------------------------------------------------------- peer reconciles

  /** A reconcile starts from some stored version of the peer and some published CIDR. */
  predicate CanBegin(s: State, k: Key, copy: Peer, read: NetworkRead) {
    && InFlight(s, k) && s.work[k] == Idle && copy in s.past[k]
    && (read.Cidr? ==> copy.specNet.Some? && read.base in Published(s, Key(k.ns, copy.specNet.value)))
  }

  function DoBegin(s: State, k: Key, copy: Peer, read: NetworkRead): State {
    Doing(s, k, Start(copy, read))
  }

  /** The handlers, up to their first call after the reads. */
  function Start(copy: Peer, read: NetworkRead): Work {
    match Decide(copy)
    case AddFinalizer => Patching(copy, copy.(finalizer := true))
    case MakeKeys => Patching(copy, copy.(hasKeys := true))
    case Initialize => Patching(copy, copy.(phase := Pending))
    case ToPending => Patching(copy, copy.(phase := Pending))
    case GoIdle => Patching(copy, copy.(phase := Ready))
    case Leave => Releasing(copy)
    case Join => (
      match read
      case Missing => Failing(copy)
      case NotReady => Idle
      case Cidr(base) => Labelling(copy, base))
    case _ => Idle
  }

  /** A finalizer is written with an update that needs the current version; the rest are merges. A
      swallowed conflict on the keys lets the reconcile go on to the next phase. */
  function DoWrite(s: State, k: Key, from: Peer, to: Peer, patch: Patch): State
    requires k in s.peers
  {
    if patch == Conflict && from.hasKeys != to.hasKeys then Doing(s, k, Patching(from, from.(phase := Pending)))
    else if patch != Applied || (from.finalizer != to.finalizer && from != s.peers[k]) then Doing(s, k, Idle)
    else if from.finalizer != to.finalizer then Doing(Storing(s, k, to), k, Idle)
    else Doing(Storing(s, k, MergeMeta(MergeStatus(s.peers[k], from, to), from, to)), k, Idle)
  }

  /** ensurePeerSpec: a written label ends the reconcile, a swallowed conflict does not. */
  function DoLabel(c: Config, s: State, k: Key, copy: Peer, base: Addr, patch: Patch): State
    requires k in s.peers && copy.specNet.Some?
  {
    var to := Labelled(c.digest, copy);
    if to == copy then Doing(s, k, Listing(copy, base))
    else match patch
      case Applied => Doing(Storing(s, k, MergeMeta(s.peers[k], copy, to)), k, Idle)
      case Conflict => Doing(s, k, Listing(copy, base))
      case Refused => Doing(s, k, Failing(copy))
  }

  /** AllocateIP after its list: reuse the peer's own endpoint, or start trying candidates. */
  function DoList(s: State, k: Key, copy: Peer, base: Addr, listed: seq<Listed>): State {
    match OwnListed(listed, k.name)
    case Some(a) => Doing(s, k, Recording(copy, a))
    case None => Doing(s, k, Scanning(copy, base, HostLow(base), ListedNames(listed)))
  }

  /** One turn of AllocateIP's candidate loop. */
  function DoTry(c: Config, s: State, k: Key, copy: Peer, base: Addr, next: int, used: set<string>,
                 reachable: bool): State
    requires c.Valid()
  {
    if !(0 <= next <= HostHigh(base, c.pool.subnetMask)) then Doing(s, k, Failing(copy))
    else if IpName(next) in used then Doing(s, k, Scanning(copy, base, next + 1, used))
    else if !reachable then Doing(s, k, Failing(copy))
    else if EndpointKey(k.ns, IpName(next)) in s.endpoints then Doing(s, k, Scanning(copy, base, next + 1, used))
    else Doing(Holding(s, k, next), k, Recording(copy, next))
  }

  /** The endpoint of an address is created for a peer. */
  function Holding(s: State, k: Key, a: Addr): State {
    s.(endpoints := s.endpoints[EndpointKey(k.ns, IpName(a)) := Endpoint(a, k.name)])
  }

  function DoRecord(s: State, k: Key, copy: Peer, a: Addr, patch: Patch): State
    requires k in s.peers
  {
    if patch != Applied then Doing(s, k, Idle)
    else Doing(Storing(s, k, MergeStatus(s.peers[k], copy, Joined(copy, a))), k, Idle)
  }

  function DoRelease(s: State, k: Key, copy: Peer, reachable: bool): State {
    if copy.address == None then Doing(s, k, Unlabelling(copy))
    else if !reachable then Doing(s, k, Idle)
    else Doing(DoCollect(s, EndpointKey(k.ns, IpName(copy.address.value))), k, Unlabelling(copy))
  }

  function DoUnlabel(s: State, k: Key, copy: Peer, patch: Patch): State
    requires k in s.peers
  {
    var to := Unlabelled(copy);
    if to == copy then Doing(s, k, Clearing(copy))
    else match patch
      case Applied => Doing(Storing(s, k, MergeMeta(s.peers[k], copy, to)), k, Clearing(to))
      case Conflict => Doing(s, k, Clearing(copy))
      case Refused => Doing(s, k, Failing(copy))
  }

  function DoClear(s: State, k: Key, copy: Peer, patch: Patch): State
    requires k in s.peers
  {
    if patch != Applied then Doing(s, k, Idle)
    else Doing(Storing(s, k, MergeStatus(s.peers[k], copy, Cleared(copy))), k, Idle)
  }

  // ---------------------------------------------------------------- all events

  ghost predicate Enabled(c: Config, s: State, e: Event)
    requires c.Valid()
  {
    match e
    case Create(k, _, labels) => CanCreate(s, k, labels)
    case Edit(k, _, labels) => CanEdit(s, k, labels)
    case Collect(key) => true
    case ClaimSubnet(n, names, base) => CanClaim(c, s, n, names, base)
    case PublishCidr(n, _) => n in s.claims
    case Begin(k, copy, read) => CanBegin(s, k, copy, read)
    case Write(k, _) => InFlight(s, k) && s.work[k].Patching?
    case Label(k, _) => InFlight(s, k) && s.work[k].Labelling? && s.work[k].copy.specNet.Some?
    case List(k, _) => InFlight(s, k) && s.work[k].Listing?
    case Try(k, _) => InFlight(s, k) && s.work[k].Scanning?
    case Record(k, _) => InFlight(s, k) && s.work[k].Recording?
    case Release(k, _) => InFlight(s, k) && s.work[k].Releasing?
    case Unlabel(k, _) => InFlight(s, k) && s.work[k].Unlabelling?
    case Clear(k, _) => InFlight(s, k) && s.work[k].Clearing?
    case Abort(k) => InFlight(s, k)
  }

  ghost function Apply(c: Config, s: State, e: Event): State
    requires c.Valid() && Enabled(c, s, e)
  {
    match e
    case Create(k, specNet, labels) => DoCreate(s, k, specNet, labels)
    case Edit(k, specNet, labels) => DoEdit(s, k, specNet, labels)
    case Collect(key) => DoCollect(s, key)
    case ClaimSubnet(n, _, base) => DoClaim(s, n, base)
    case PublishCidr(n, patch) => DoPublish(s, n, patch)
    case Begin(k, copy, read) => DoBegin(s, k, copy, read)
    case Write(k, patch) => DoWrite(s, k, s.work[k].from, s.work[k].to, patch)
    case Label(k, patch) => DoLabel(c, s, k, s.work[k].copy, s.work[k].base, patch)
    case List(k, listed) => DoList(s, k, s.work[k].copy, s.work[k].base, listed)
    case Try(k, reachable) =>
      DoTry(c, s, k, s.work[k].copy, s.work[k].base, s.work[k].next, s.work[k].used, reachable)
    case Record(k, patch) => DoRecord(s, k, s.work[k].copy, s.work[k].claimed, patch)
    case Release(k, reachable) => DoRelease(s, k, s.work[k].copy, reachable)
    case Unlabel(k, patch) => DoUnlabel(s, k, s.work[k].copy, patch)
    case Clear(k, patch) => DoClear(s, k, s.work[k].copy, patch)
    case Abort(k) => Doing(s, k, Idle)
  }

  // ---------------------------------------------------------------- runs

  ghost predicate Next(c: Config, s: State, e: Event, t: State)
    requires c.Valid()
  {
    Enabled(c, s, e) && t == Apply(c, s, e)
  }

  ghost predicate IsRun(c: Config, states: seq<State>, events: seq<Event>)
    requires c.Valid()
  {
    && |states| == |events| + 1
    && states[0] == EMPTY
    && forall i :: 0 <= i < |events| ==> Next(c, states[i], events[i], states[i + 1])
  }
}
