/** Paths of the control plane, built event by event, and the stretches of them that take a peer from its
    creation into a network and out of it again without anything going wrong. */
module Runs {
  import opened Prelude
  import opened Ipv4
  import opened KeyNames
  import opened Ipam
  import opened Peers
  import opened ControlPlane
  import opened Ownership
  import PeerReconciler

  /** The steps a path may take: a state and the event that happens in it. */
  type Steps = iset<(State, Event)>

  ghost predicate IsPath(c: Config, allowed: Steps, states: seq<State>, events: seq<Event>)
    requires c.Valid()
  {
    && |states| == |events| + 1
    && forall i :: 0 <= i < |events| ==>
         Next(c, states[i], events[i], states[i + 1]) && (states[i], events[i]) in allowed
  }

  ghost predicate Leads(c: Config, allowed: Steps, s: State, t: State)
    requires c.Valid()
  {
    exists states, events :: IsPath(c, allowed, states, events) && states[0] == s && states[|events|] == t
  }

  lemma Stay(c: Config, allowed: Steps, s: State)
    requires c.Valid()
    ensures Leads(c, allowed, s, s)
  {
    var states, events: seq<Event> := [s], [];
    assert IsPath(c, allowed, states, events) && states[|events|] == s;
  }

  lemma PathLength(c: Config, allowed: Steps, states: seq<State>, events: seq<Event>)
    requires c.Valid() && IsPath(c, allowed, states, events)
    ensures |states| == |events| + 1
  {
  }

  /** A path with one more event. */
  lemma Append(c: Config, allowed: Steps, states: seq<State>, events: seq<Event>, e: Event)
    requires c.Valid() && IsPath(c, allowed, states, events)
    requires Enabled(c, states[|events|], e) && (states[|events|], e) in allowed
    ensures IsPath(c, allowed, states + [Apply(c, states[|events|], e)], events + [e])
  {
    hide Apply, Enabled;
    var t := states[|events|];
    var u := Apply(c, t, e);
    assert Next(c, t, e, u);
    hide Next;
    var more, also := states + [u], events + [e];
    forall i | 0 <= i < |also| ensures Next(c, more[i], also[i], more[i + 1]) && (more[i], also[i]) in allowed {
      assert i < |events| ==> Next(c, states[i], events[i], states[i + 1]) && (states[i], events[i]) in allowed;
    }
  }

  lemma Extend(c: Config, allowed: Steps, s: State, t: State, e: Event)
    requires c.Valid() && Leads(c, allowed, s, t) && Enabled(c, t, e) && (t, e) in allowed
    ensures Leads(c, allowed, s, Apply(c, t, e))
  {
    hide Apply, Enabled, Next;
    var states, events :| IsPath(c, allowed, states, events) && states[0] == s && states[|events|] == t;
    Append(c, allowed, states, events, e);
    var more, also := states + [Apply(c, t, e)], events + [e];
    assert IsPath(c, allowed, more, also) && more[0] == s;
  }

  /** A path from the empty store is a run. */
  lemma PathIsRun(c: Config, allowed: Steps, t: State) returns (states: seq<State>, events: seq<Event>)
    requires c.Valid() && Leads(c, allowed, EMPTY, t)
    ensures IsRun(c, states, events) && states[|events|] == t
    ensures forall i :: 0 <= i < |events| ==> (states[i], events[i]) in allowed
  {
    hide Next;
    states, events :| IsPath(c, allowed, states, events) && states[0] == EMPTY && states[|events|] == t;
  }

  // ---------------------------------------------------------------- nothing goes wrong

  /** Reads are up to date, lists are right about the peer, patches are applied, nothing is collected or
      cut off. */
  ghost predicate Gentle(s: State, e: Event) {
    match e
    case Begin(k, copy, _) => k in s.peers && copy == s.peers[k]
    case List(k, listed) =>
      match OwnListed(listed, k.name) {
        case None => OwnsNone(s.endpoints, k)
        case Some(a) => Owns(s.endpoints, k, AddressKey(k, a))
      }
    case Collect(_) => false
    case Write(_, patch) => patch == Applied
    case Label(_, patch) => patch == Applied
    case Record(_, patch) => patch == Applied
    case Unlabel(_, patch) => patch == Applied
    case Clear(_, patch) => patch == Applied
    case Abort(_) => false
    case _ => true
  }

  ghost predicate Permits(allowed: Steps) {
    forall s: State, e: Event | Gentle(s, e) :: (s, e) in allowed
  }

  /** Steps in which nothing goes wrong. */
  ghost function GentleSteps(): Steps { iset x: (State, Event) | Gentle(x.0, x.1) }

  lemma GentlePermit()
    ensures Permits(GentleSteps())
  {
    hide Gentle;
  }

  // ---------------------------------------------------------------- what a stretch of a path does

  /** Only peer k changed: it is now stored as p, has been before, and its reconcile is at w. */
  ghost predicate Became(s: State, t: State, k: Key, p: Peer, w: Work, endpoints: Endpoints) {
    && t.subnets == s.subnets && t.winners == s.winners && t.claims == s.claims && t.published == s.published
    && t.endpoints == endpoints && t.peers == s.peers[k := p] && t.work == s.work[k := w]
    && k in t.past && p in t.past[k] && (k in s.past ==> s.past[k] <= t.past[k])
    && (forall j | j != k :: (j in t.past <==> j in s.past) && (j in t.past ==> t.past[j] == s.past[j]))
  }

  lemma BecameThen(s: State, t: State, u: State, k: Key, p: Peer, w: Work, es: Endpoints, q: Peer, v: Work,
                   fs: Endpoints)
    requires Became(s, t, k, p, w, es) && Became(t, u, k, q, v, fs)
    ensures Became(s, u, k, q, v, fs) && InWork(u, k, q, v) && p in u.past[k]
  {
    assert s.peers[k := p][k := q] == s.peers[k := q];
    assert s.work[k := w][k := v] == s.work[k := v];
  }

  /** Peer k is stored as p, and its reconcile is at w. */
  predicate InWork(s: State, k: Key, p: Peer, w: Work) {
    InFlight(s, k) && s.work[k] == w && s.peers[k] == p && p in s.past[k]
  }

  predicate AtRest(s: State, k: Key, p: Peer) { InWork(s, k, p, Idle) }

  function WithEndpoint(endpoints: Endpoints, k: Key, a: Addr): Endpoints {
    endpoints[AddressKey(k, a) := Endpoint(a, k.name)]
  }

  /** Moving on without storing. */
  lemma Moves(s: State, k: Key, w: Work)
    requires InFlight(s, k) && s.peers[k] in s.past[k]
    ensures Became(s, Doing(s, k, w), k, s.peers[k], w, s.endpoints) && InWork(Doing(s, k, w), k, s.peers[k], w)
    ensures Doing(s, k, w).endpoints == s.endpoints
  {
    assert s.peers[k := s.peers[k]] == s.peers;
  }

  lemma Stores(s: State, k: Key, p: Peer, w: Work)
    ensures var t := Doing(Storing(s, k, p), k, w);
      Became(s, t, k, p, w, s.endpoints) && InWork(t, k, p, w) && t.endpoints == s.endpoints
  {
  }

  // ---------------------------------------------------------------- one patch

  /** A reconcile from the stored peer whose whole work is one patch. */
  lemma PatchRound(c: Config, allowed: Steps, from: State, s: State, k: Key, p: Peer, q: Peer, read: NetworkRead)
    returns (t: State)
    requires c.Valid() && Permits(allowed) && Leads(c, allowed, from, s) && AtRest(s, k, p)
    requires !read.Cidr? && Start(p, read) == Patching(p, q)
    requires q in {p.(finalizer := true), p.(hasKeys := true), p.(phase := q.phase)}
    ensures Leads(c, allowed, from, t) && Became(s, t, k, q, Idle, s.endpoints) && AtRest(t, k, q)
    ensures t.endpoints == s.endpoints
  {
    var s1 := Doing(s, k, Patching(p, q));
    BeginStep(c, allowed, from, s, k, p, read);
    Moves(s, k, Patching(p, q));
    t := Doing(Storing(s1, k, q), k, Idle);
    WriteStep(c, allowed, from, s1, k, p, q);
    Stores(s1, k, q, Idle);
    hide Became, Leads;
    BecameThen(s, s1, t, k, p, Patching(p, q), s.endpoints, q, Idle, s1.endpoints);
  }

  lemma BeginStep(c: Config, allowed: Steps, from: State, s: State, k: Key, p: Peer, read: NetworkRead)
    requires c.Valid() && Permits(allowed) && Leads(c, allowed, from, s) && AtRest(s, k, p) && CanBegin(s, k, p, read)
    ensures Leads(c, allowed, from, Doing(s, k, Start(p, read)))
  {
    hide Leads, Start, Doing;
    var e := Begin(k, p, read);
    assert Gentle(s, e);
    Extend(c, allowed, from, s, e);
  }

  lemma WriteStep(c: Config, allowed: Steps, from: State, s: State, k: Key, p: Peer, q: Peer)
    requires c.Valid() && Permits(allowed) && Leads(c, allowed, from, s)
    requires InWork(s, k, p, Patching(p, q))
    requires q in {p.(finalizer := true), p.(hasKeys := true), p.(phase := q.phase)}
    ensures Leads(c, allowed, from, Doing(Storing(s, k, q), k, Idle))
  {
    var e := Write(k, Applied);
    Works(c, s, k, Patching(p, q), Applied);
    WriteIs(s, k, p, q);
    hide Leads, Doing, Storing, Permits, Enabled, Apply, DoWrite;
    PermitsWork(allowed, s, e);
    Extend(c, allowed, from, s, e);
  }

  lemma WriteIs(s: State, k: Key, p: Peer, q: Peer)
    requires k in s.peers && s.peers[k] == p && q in {p.(finalizer := true), p.(hasKeys := true), p.(phase := q.phase)}
    ensures DoWrite(s, k, p, q, Applied) == Doing(Storing(s, k, q), k, Idle)
  {
    hide Doing, Storing;
    MergeLabelsSame(p.labels);
  }

  lemma MergeLabelsSame(labels: Labels)
    ensures MergeLabels(labels, labels, labels) == labels
  {
  }

  lemma PermitsWork(allowed: Steps, s: State, e: Event)
    requires Permits(allowed) && Gentle(s, e)
    ensures (s, e) in allowed
  {
    hide Gentle;
  }

  // ---------------------------------------------------------------- a new peer

  function Waiting(specNet: Option<string>): Peer { Peer(true, true, specNet, map[], Pending, None, None) }

  /** From creation to Pending, with finalizer and keys. */
  lemma Born(c: Config, allowed: Steps, from: State, s: State, k: Key, specNet: Option<string>) returns (t: State)
    requires c.Valid() && Permits(allowed) && Leads(c, allowed, from, s) && k !in s.peers
    ensures Leads(c, allowed, from, t)
    ensures Became(s, t, k, Waiting(specNet), Idle, s.endpoints) && AtRest(t, k, Waiting(specNet))
    ensures t.endpoints == s.endpoints
  {
    hide Leads, Permits, Became, AtRest;
    var p0 := NewPeer(specNet, map[]);
    var s0 := CreateStep(c, allowed, from, s, k, specNet);
    var p1 := p0.(finalizer := true);
    var s1 := PatchRound(c, allowed, from, s0, k, p0, p1, Missing);
    BecameThen(s, s0, s1, k, p0, Idle, s.endpoints, p1, Idle, s0.endpoints);
    var p2 := p1.(hasKeys := true);
    var s2 := PatchRound(c, allowed, from, s1, k, p1, p2, Missing);
    BecameThen(s, s1, s2, k, p1, Idle, s.endpoints, p2, Idle, s1.endpoints);
    t := PatchRound(c, allowed, from, s2, k, p2, Waiting(specNet), Missing);
    BecameThen(s, s2, t, k, p2, Idle, s.endpoints, Waiting(specNet), Idle, s2.endpoints);
  }

  lemma CreateStep(c: Config, allowed: Steps, from: State, s: State, k: Key, specNet: Option<string>) returns (t: State)
    requires c.Valid() && Permits(allowed) && Leads(c, allowed, from, s) && k !in s.peers
    ensures Leads(c, allowed, from, t)
    ensures Became(s, t, k, NewPeer(specNet, map[]), Idle, s.endpoints) && AtRest(t, k, NewPeer(specNet, map[]))
    ensures t.endpoints == s.endpoints
  {
    var none: Labels := map[];
    var e := Create(k, specNet, none);
    assert NetworkLabels(none) == {};
    assert Gentle(s, e);
    t := DoCreate(s, k, specNet, none);
    Stores(s, k, NewPeer(specNet, none), Idle);
    hide Leads, Doing, Storing;
    Extend(c, allowed, from, s, e);
  }

  // ---------------------------------------------------------------- a network gets its subnet

  predicate SamePeers(s: State, t: State) {
    t.peers == s.peers && t.work == s.work && t.past == s.past && t.endpoints == s.endpoints && t.claims == s.claims
  }

  lemma Won(c: Config, allowed: Steps, from: State, s: State, n: Key, names: seq<string>, base: Addr) returns (t: State)
    requires c.Valid() && Permits(allowed) && Leads(c, allowed, from, s)
    requires CanClaim(c, s, n, names, base) && SubnetName(base) !in s.subnets
    ensures Leads(c, allowed, from, t) && SamePeers(s, t)
    ensures t.subnets == s.subnets[SubnetName(base) := base] && base in Published(t, n)
    ensures forall m :: Published(s, m) <= Published(t, m)
  {
    var e, f := ClaimSubnet(n, names, base), PublishCidr(n, Applied);
    assert n !in s.claims;
    hide Leads, CanClaim, DoClaim, DoPublish, Permits, Published, SamePeers, Enabled, Apply, SubnetName;
    var s1 := DoClaim(s, n, base);
    ClaimThenPublish(s, n, base);
    NetworkIs(c, s, n, names, base);
    NetworkIs(c, s1, n, names, base);
    PermitsWork(allowed, s, e);
    Extend(c, allowed, from, s, e);
    PermitsWork(allowed, s1, f);
    Extend(c, allowed, from, s1, f);
    t := DoPublish(s1, n, Applied);
  }

  lemma NetworkIs(c: Config, s: State, n: Key, names: seq<string>, base: Addr)
    requires c.Valid()
    ensures CanClaim(c, s, n, names, base) ==>
      Enabled(c, s, ClaimSubnet(n, names, base)) && Apply(c, s, ClaimSubnet(n, names, base)) == DoClaim(s, n, base)
    ensures n in s.claims ==>
      Enabled(c, s, PublishCidr(n, Applied)) && Apply(c, s, PublishCidr(n, Applied)) == DoPublish(s, n, Applied)
  {
    hide CanClaim, DoClaim, DoPublish;
  }

  lemma ClaimThenPublish(s: State, n: Key, base: Addr)
    requires n !in s.claims && SubnetName(base) !in s.subnets
    ensures var s1 := DoClaim(s, n, base); n in s1.claims
    ensures var t := DoPublish(DoClaim(s, n, base), n, Applied);
      && SamePeers(s, t) && t.subnets == s.subnets[SubnetName(base) := base] && base in Published(t, n)
      && forall m :: Published(s, m) <= Published(t, m)
  {
    hide SubnetName;
    var t := DoPublish(DoClaim(s, n, base), n, Applied);
    assert t.claims == s.claims;
  }

  lemma FirstSubnet(pool: Pool)
    requires pool.Valid()
    ensures LowestFree(pool, [], Some(pool.Start())) && pool.IsSubnet(pool.Start())
  {
    hide IpToHex, BlockSize;
    VisitedSlots(pool, 0);
    forall x: Addr | pool.IsSubnet(x) ensures x >= pool.Start() {
      NotBelowStart(pool, x);
    }
  }

  lemma NotBelowStart(pool: Pool, x: Addr)
    requires pool.Valid() && pool.IsSubnet(x)
    ensures x >= pool.Start()
  {
    hide IpToHex;
    var k := SubnetIsSlot(pool, x);
    MulMono(0, k, BlockSize(pool.subnetMask));
  }

  lemma SecondSubnet(pool: Pool) returns (base: Addr)
    requires pool.Valid() && pool.prefix < pool.subnetMask
    ensures LowestFree(pool, [SubnetName(pool.Start())], Some(base)) && pool.IsSubnet(base)
    ensures SubnetName(base) != SubnetName(pool.Start())
  {
    hide IpToHex, BlockSize;
    Pow2Mono(1, pool.subnetMask - pool.prefix);
    assert Pow2(1) == 2;
    base := Visited(pool, 1);
    VisitedSlots(pool, 0);
    VisitedSlots(pool, 1);
    SlotsGrow(pool, base);
    SubnetNameInjective(base, pool.Start());
    assert |SubnetName(pool.Start())| != |IpToHex(base)|;
  }

  /** Between the first and the second subnet there is none. */
  lemma SlotsGrow(pool: Pool, base: Addr)
    requires pool.Valid() && pool.SlotCount() >= 2 && base == Visited(pool, 1)
    ensures base > pool.Start() && forall x: Addr | pool.IsSubnet(x) && x < base :: x == pool.Start()
  {
    VisitedSlots(pool, 1);
    forall x: Addr | pool.IsSubnet(x) && x < base ensures x == pool.Start() {
      var k := SubnetIsSlot(pool, x);
      if k >= 1 {
        MulMono(1, k, BlockSize(pool.subnetMask));
      }
    }
  }

  // ---------------------------------------------------------------- into a network

  /** An event that stores nothing. */
  lemma MoveStep(c: Config, allowed: Steps, from: State, s: State, k: Key, e: Event, w: Work) returns (t: State)
    requires c.Valid() && Leads(c, allowed, from, s) && InFlight(s, k) && s.peers[k] in s.past[k]
    requires Enabled(c, s, e) && (s, e) in allowed && Apply(c, s, e) == Doing(s, k, w)
    ensures Leads(c, allowed, from, t) && Became(s, t, k, s.peers[k], w, s.endpoints)
    ensures InWork(t, k, s.peers[k], w) && t.endpoints == s.endpoints
  {
    hide Enabled, Apply, Leads;
    t := Doing(s, k, w);
    Extend(c, allowed, from, s, e);
    Moves(s, k, w);
  }

  /** An event that stores the peer anew. */
  lemma StoreStep(c: Config, allowed: Steps, from: State, s: State, k: Key, e: Event, q: Peer, w: Work)
    returns (t: State)
    requires c.Valid() && Leads(c, allowed, from, s)
    requires Enabled(c, s, e) && (s, e) in allowed && Apply(c, s, e) == Doing(Storing(s, k, q), k, w)
    ensures Leads(c, allowed, from, t) && Became(s, t, k, q, w, s.endpoints)
    ensures InWork(t, k, q, w) && t.endpoints == s.endpoints
  {
    hide Enabled, Apply, Leads;
    t := Doing(Storing(s, k, q), k, w);
    Extend(c, allowed, from, s, e);
    Stores(s, k, q, w);
  }

  /** A peer ready to join the network of its Spec, whose subnet is published. */
  predicate Joins(s: State, k: Key, p: Peer, base: Addr) {
    AtRest(s, k, p) && Decide(p) == Join && p.specNet.Some? && base in Published(s, Key(k.ns, p.specNet.value))
  }

  /** The first reconcile of a join sets the label. */
  lemma LabelRound(c: Config, allowed: Steps, from: State, s: State, k: Key, p: Peer, base: Addr) returns (t: State)
    requires c.Valid() && Permits(allowed) && Leads(c, allowed, from, s)
    requires Joins(s, k, p, base) && Labelled(c.digest, p) != p
    ensures Leads(c, allowed, from, t)
    ensures Became(s, t, k, Labelled(c.digest, p), Idle, s.endpoints) && AtRest(t, k, Labelled(c.digest, p))
    ensures t.endpoints == s.endpoints
  {
    hide Leads, Labelled, NetworkLabels, Became, Decide, Published, Permits;
    var q := Labelled(c.digest, p);
    var s1 := BeginJoin(c, allowed, from, s, k, p, base);
    t := LabelStep(c, allowed, from, s1, k, p, base);
    BecameThen(s, s1, t, k, p, Labelling(p, base), s.endpoints, q, Idle, s1.endpoints);
  }

  lemma BeginJoin(c: Config, allowed: Steps, from: State, s: State, k: Key, p: Peer, base: Addr) returns (t: State)
    requires c.Valid() && Permits(allowed) && Leads(c, allowed, from, s) && Joins(s, k, p, base)
    ensures Leads(c, allowed, from, t) && Became(s, t, k, p, Labelling(p, base), s.endpoints)
    ensures InWork(t, k, p, Labelling(p, base)) && t.endpoints == s.endpoints
  {
    hide Leads, Decide, Published;
    BeginStep(c, allowed, from, s, k, p, Cidr(base));
    Moves(s, k, Labelling(p, base));
    t := Doing(s, k, Labelling(p, base));
  }

  lemma LabelStep(c: Config, allowed: Steps, from: State, s: State, k: Key, p: Peer, base: Addr) returns (t: State)
    requires c.Valid() && Permits(allowed) && Leads(c, allowed, from, s)
    requires InWork(s, k, p, Labelling(p, base)) && p.specNet.Some?
    requires Labelled(c.digest, p) != p
    ensures Leads(c, allowed, from, t) && Became(s, t, k, Labelled(c.digest, p), Idle, s.endpoints)
    ensures AtRest(t, k, Labelled(c.digest, p)) && t.endpoints == s.endpoints
  {
    LabelIs(c, s, k, p, base);
    hide Leads, Labelled, NetworkLabels, Permits, Became, Doing, Storing, Enabled, Apply;
    var e := Label(k, Applied);
    PermitsWork(allowed, s, e);
    t := StoreStep(c, allowed, from, s, k, e, Labelled(c.digest, p), Idle);
  }

  lemma LabelIs(c: Config, s: State, k: Key, p: Peer, base: Addr)
    requires c.Valid() && InWork(s, k, p, Labelling(p, base)) && p.specNet.Some? && Labelled(c.digest, p) != p
    ensures Enabled(c, s, Label(k, Applied))
    ensures Apply(c, s, Label(k, Applied)) == Doing(Storing(s, k, Labelled(c.digest, p)), k, Idle)
  {
    Works(c, s, k, Labelling(p, base), Applied);
    hide Enabled, Apply, Doing, Storing, MergeMeta, Labelled, NetworkLabels;
    FreshMerge(p, Labelled(c.digest, p));
  }

  /** The event that the work in flight waits for is enabled and does what the work says. */
  lemma Works(c: Config, s: State, k: Key, w: Work, patch: Patch)
    requires c.Valid() && InFlight(s, k) && s.work[k] == w
    ensures w.Patching? ==>
      Enabled(c, s, Write(k, patch)) && Apply(c, s, Write(k, patch)) == DoWrite(s, k, w.from, w.to, patch)
    ensures w.Labelling? && w.copy.specNet.Some? ==>
      Enabled(c, s, Label(k, patch)) && Apply(c, s, Label(k, patch)) == DoLabel(c, s, k, w.copy, w.base, patch)
    ensures w.Recording? ==>
      Enabled(c, s, Record(k, patch)) && Apply(c, s, Record(k, patch)) == DoRecord(s, k, w.copy, w.claimed, patch)
    ensures w.Unlabelling? ==>
      Enabled(c, s, Unlabel(k, patch)) && Apply(c, s, Unlabel(k, patch)) == DoUnlabel(s, k, w.copy, patch)
    ensures w.Clearing? ==>
      Enabled(c, s, Clear(k, patch)) && Apply(c, s, Clear(k, patch)) == DoClear(s, k, w.copy, patch)
  {
    hide DoCreate, DoEdit, DoCollect, DoClaim, DoPublish, DoBegin, DoWrite, DoLabel, DoList, DoTry, DoRecord;
    hide DoRelease, DoUnlabel, DoClear, CanCreate, CanEdit, CanClaim, CanBegin, Doing;
  }

  /** With the label set, the next reconcile goes on to the list. */
  lemma ToListing(c: Config, allowed: Steps, from: State, s: State, k: Key, p: Peer, base: Addr) returns (t: State)
    requires c.Valid() && Permits(allowed) && Leads(c, allowed, from, s)
    requires Joins(s, k, p, base) && Labelled(c.digest, p) == p
    ensures Leads(c, allowed, from, t) && Became(s, t, k, p, Listing(p, base), s.endpoints)
    ensures InWork(t, k, p, Listing(p, base)) && t.endpoints == s.endpoints
  {
    hide Leads, Labelled, NetworkLabels, Permits, Became, Decide, Published;
    var s1 := BeginJoin(c, allowed, from, s, k, p, base);
    t := SkipLabel(c, allowed, from, s1, k, p, base);
    BecameThen(s, s1, t, k, p, Labelling(p, base), s.endpoints, p, Listing(p, base), s1.endpoints);
  }

  lemma SkipLabel(c: Config, allowed: Steps, from: State, s: State, k: Key, p: Peer, base: Addr) returns (t: State)
    requires c.Valid() && Permits(allowed) && Leads(c, allowed, from, s)
    requires InWork(s, k, p, Labelling(p, base)) && p.specNet.Some?
    requires Labelled(c.digest, p) == p
    ensures Leads(c, allowed, from, t) && Became(s, t, k, p, Listing(p, base), s.endpoints)
    ensures InWork(t, k, p, Listing(p, base)) && t.endpoints == s.endpoints
  {
    hide Leads, Labelled, NetworkLabels, Permits, Became, Doing;
    var e := Label(k, Applied);
    Works(c, s, k, Labelling(p, base), Applied);
    PermitsWork(allowed, s, e);
    hide Enabled, Apply;
    t := MoveStep(c, allowed, from, s, k, e, Listing(p, base));
  }

  /** An empty list, the first candidate, and the record of it. */
  lemma ClaimFirstHost(c: Config, allowed: Steps, from: State, s: State, k: Key, p: Peer, base: Addr) returns (t: State)
    requires c.Valid() && Permits(allowed) && Leads(c, allowed, from, s)
    requires InWork(s, k, p, Listing(p, base))
    requires OwnsNone(s.endpoints, k) && AddressKey(k, HostLow(base)) !in s.endpoints
    requires HostLow(base) <= HostHigh(base, c.pool.subnetMask)
    ensures Leads(c, allowed, from, t)
    ensures Became(s, t, k, p, Recording(p, HostLow(base)), WithEndpoint(s.endpoints, k, HostLow(base)))
    ensures InWork(t, k, p, Recording(p, HostLow(base))) && t.endpoints == WithEndpoint(s.endpoints, k, HostLow(base))
  {
    hide Leads, IpName, HostLow, HostHigh, Permits, OwnsNone;
    var w := Scanning(p, base, HostLow(base), {});
    var e := List(k, []);
    assert ListedNames([]) == {};
    PermitsWork(allowed, s, e);
    var s1 := MoveStep(c, allowed, from, s, k, e, w);
    t := TryFirst(c, allowed, from, s1, k, p, base);
    hide Became;
    BecameThen(s, s1, t, k, p, w, s.endpoints, p, Recording(p, HostLow(base)), t.endpoints);
  }

  lemma TryFirst(c: Config, allowed: Steps, from: State, s: State, k: Key, p: Peer, base: Addr) returns (t: State)
    requires c.Valid() && Permits(allowed) && Leads(c, allowed, from, s)
    requires InWork(s, k, p, Scanning(p, base, HostLow(base), {}))
    requires AddressKey(k, HostLow(base)) !in s.endpoints && HostLow(base) <= HostHigh(base, c.pool.subnetMask)
    ensures Leads(c, allowed, from, t)
    ensures Became(s, t, k, p, Recording(p, HostLow(base)), WithEndpoint(s.endpoints, k, HostLow(base)))
    ensures InWork(t, k, p, Recording(p, HostLow(base))) && t.endpoints == WithEndpoint(s.endpoints, k, HostLow(base))
  {
    TryIs(c, s, k, p, base);
    hide Leads, IpName, HostLow, HostHigh, Permits, Enabled, Apply;
    var e := Try(k, true);
    PermitsWork(allowed, s, e);
    Extend(c, allowed, from, s, e);
    t := Doing(Holding(s, k, HostLow(base)), k, Recording(p, HostLow(base)));
    assert s.peers[k := p] == s.peers;
  }

  lemma TryIs(c: Config, s: State, k: Key, p: Peer, base: Addr)
    requires c.Valid() && InWork(s, k, p, Scanning(p, base, HostLow(base), {}))
    requires AddressKey(k, HostLow(base)) !in s.endpoints && HostLow(base) <= HostHigh(base, c.pool.subnetMask)
    ensures Enabled(c, s, Try(k, true))
    ensures Apply(c, s, Try(k, true)) == Doing(Holding(s, k, HostLow(base)), k, Recording(p, HostLow(base)))
  {
    hide Doing, Holding, IpName, HostLow, HostHigh;
  }

  lemma RecordStep(c: Config, allowed: Steps, from: State, s: State, k: Key, p: Peer, a: Addr) returns (t: State)
    requires c.Valid() && Permits(allowed) && Leads(c, allowed, from, s)
    requires InWork(s, k, p, Recording(p, a))
    ensures Leads(c, allowed, from, t) && Became(s, t, k, Joined(p, a), Idle, s.endpoints) && AtRest(t, k, Joined(p, a))
    ensures t.endpoints == s.endpoints
  {
    RecordIs(c, s, k, p, a);
    hide Leads, Permits, Doing, Storing, MergeStatus, Enabled, Apply;
    var e := Record(k, Applied);
    PermitsWork(allowed, s, e);
    t := StoreStep(c, allowed, from, s, k, e, Joined(p, a), Idle);
  }

  lemma RecordIs(c: Config, s: State, k: Key, p: Peer, a: Addr)
    requires c.Valid() && InWork(s, k, p, Recording(p, a))
    ensures Enabled(c, s, Record(k, Applied))
    ensures Apply(c, s, Record(k, Applied)) == Doing(Storing(s, k, Joined(p, a)), k, Idle)
  {
    Works(c, s, k, Recording(p, a), Applied);
    hide Enabled, Apply, Doing, Storing, MergeStatus;
    FreshMerge(p, Joined(p, a));
  }

  /** A join from start to end, with the first host of the subnet. */
  lemma JoinFirst(c: Config, allowed: Steps, from: State, s: State, k: Key, p: Peer, base: Addr) returns (t: State)
    requires c.Valid() && Permits(allowed) && Leads(c, allowed, from, s)
    requires Joins(s, k, p, base) && Labelled(c.digest, p) != p
    requires OwnsNone(s.endpoints, k) && AddressKey(k, HostLow(base)) !in s.endpoints
    requires HostLow(base) <= HostHigh(base, c.pool.subnetMask)
    ensures var q, endpoints := Joined(Labelled(c.digest, p), HostLow(base)),
                        WithEndpoint(s.endpoints, k, HostLow(base));
      Leads(c, allowed, from, t) && Became(s, t, k, q, Idle, endpoints) && AtRest(t, k, q) && t.endpoints == endpoints
  {
    var q, a := Labelled(c.digest, p), HostLow(base);
    PeerReconciler.LabelledTwice(c.digest, p);
    hide Labelled, NetworkLabels, Leads, Permits, Became, Joins, IpName, HostLow, HostHigh, OwnsNone, WithEndpoint;
    hide AtRest;
    var s1 := LabelRound(c, allowed, from, s, k, p, base);
    StillJoins(s, s1, k, p, q, base);
    t := JoinLabelled(c, allowed, from, s1, k, q, base);
    BecameThen(s, s1, t, k, q, Idle, s.endpoints, Joined(q, a), Idle, t.endpoints);
  }

  lemma StillJoins(s: State, t: State, k: Key, p: Peer, q: Peer, base: Addr)
    requires Joins(s, k, p, base) && q == p.(labels := q.labels) && Became(s, t, k, q, Idle, s.endpoints)
    ensures Joins(t, k, q, base)
  {
  }

  lemma JoinLabelled(c: Config, allowed: Steps, from: State, s: State, k: Key, q: Peer, base: Addr) returns (t: State)
    requires c.Valid() && Permits(allowed) && Leads(c, allowed, from, s)
    requires Joins(s, k, q, base) && Labelled(c.digest, q) == q
    requires OwnsNone(s.endpoints, k) && AddressKey(k, HostLow(base)) !in s.endpoints
    requires HostLow(base) <= HostHigh(base, c.pool.subnetMask)
    ensures var m, endpoints := Joined(q, HostLow(base)), WithEndpoint(s.endpoints, k, HostLow(base));
      Leads(c, allowed, from, t) && Became(s, t, k, m, Idle, endpoints) && AtRest(t, k, m) && t.endpoints == endpoints
  {
    hide Labelled, NetworkLabels, Leads, Permits, Became, Joins, IpName, HostLow, HostHigh, OwnsNone, WithEndpoint;
    var a := HostLow(base);
    var s2 := ToListing(c, allowed, from, s, k, q, base);
    var s3 := ClaimFirstHost(c, allowed, from, s2, k, q, base);
    BecameThen(s, s2, s3, k, q, Listing(q, base), s.endpoints, q, Recording(q, a), s3.endpoints);
    t := RecordStep(c, allowed, from, s3, k, q, a);
    BecameThen(s, s3, t, k, q, Recording(q, a), s3.endpoints, Joined(q, a), Idle, s3.endpoints);
  }

  // ---------------------------------------------------------------- out of a network

  lemma NoLabelYet(digest: Digest, p: Peer)
    requires p.specNet.Some? && p.labels == map[]
    ensures Labelled(digest, p) != p
  {
    assert NetworkLabels(p.labels) == {};
    PeerReconciler.BareNotLabelled(digest, p);
  }

  lemma EditStep(c: Config, allowed: Steps, from: State, s: State, k: Key, p: Peer, specNet: Option<string>)
    returns (t: State)
    requires c.Valid() && Permits(allowed) && Leads(c, allowed, from, s) && AtRest(s, k, p)
    ensures Leads(c, allowed, from, t) && Became(s, t, k, p.(specNet := specNet), Idle, s.endpoints)
    ensures AtRest(t, k, p.(specNet := specNet)) && t.endpoints == s.endpoints && p in t.past[k]
  {
    var e := Edit(k, specNet, p.labels);
    EditIs(c, s, k, p, specNet);
    hide Leads, Permits, Enabled, Apply, HasPrefix;
    PermitsWork(allowed, s, e);
    Extend(c, allowed, from, s, e);
    t := Storing(s, k, p.(specNet := specNet));
    StoresOnly(s, k, p, p.(specNet := specNet));
  }

  lemma StoresOnly(s: State, k: Key, p: Peer, q: Peer)
    requires AtRest(s, k, p)
    ensures var t := Storing(s, k, q);
      Became(s, t, k, q, Idle, s.endpoints) && AtRest(t, k, q) && t.endpoints == s.endpoints && p in t.past[k]
  {
    assert s.work[k := Idle] == s.work;
  }

  lemma EditIs(c: Config, s: State, k: Key, p: Peer, specNet: Option<string>)
    requires c.Valid() && AtRest(s, k, p)
    ensures Enabled(c, s, Edit(k, specNet, p.labels))
    ensures Apply(c, s, Edit(k, specNet, p.labels)) == Storing(s, k, p.(specNet := specNet))
  {
    hide Storing, HasPrefix;
  }

  /** The version of a joined peer that its leave starts from. */
  function Departing(p: Peer): Peer { p.(specNet := None, phase := Pending) }

  /** A joined peer is taken out of its network; its reconcile has just released the address. */
  lemma Unplug(c: Config, allowed: Steps, from: State, s: State, k: Key, p: Peer) returns (t: State)
    requires c.Valid() && Permits(allowed) && Leads(c, allowed, from, s) && AtRest(s, k, p)
    requires p.finalizer && p.phase == Ready && p.activeNet.Some? && p.address.Some?
    ensures Leads(c, allowed, from, t)
    ensures Became(s, t, k, Departing(p), Unlabelling(Departing(p)), s.endpoints - {AddressKey(k, p.address.value)})
    ensures InWork(t, k, Departing(p), Unlabelling(Departing(p)))
    ensures t.endpoints == s.endpoints - {AddressKey(k, p.address.value)}
  {
    var p1, p2 := p.(specNet := None), Departing(p);
    DepartingStarts(p);
    hide Start, Leads, Permits, Became, IpName;
    var s1 := EditStep(c, allowed, from, s, k, p, None);
    var s2 := PatchRound(c, allowed, from, s1, k, p1, p2, Missing);
    BecameThen(s, s1, s2, k, p1, Idle, s.endpoints, p2, Idle, s.endpoints);
    hide Departing;
    t := LeaveAndRelease(c, allowed, from, s2, k, p2);
    BecameThen(s, s2, t, k, p2, Idle, s.endpoints, p2, Unlabelling(p2), t.endpoints);
  }

  lemma DepartingStarts(p: Peer)
    requires p.finalizer && p.phase == Ready && p.activeNet.Some?
    ensures Start(p.(specNet := None), Missing) == Patching(p.(specNet := None), Departing(p))
    ensures Start(Departing(p), Missing) == Releasing(Departing(p))
  {
  }

  lemma LeaveAndRelease(c: Config, allowed: Steps, from: State, s: State, k: Key, p: Peer) returns (t: State)
    requires c.Valid() && Permits(allowed) && Leads(c, allowed, from, s) && AtRest(s, k, p)
    requires Start(p, Missing) == Releasing(p) && p.address.Some?
    ensures Leads(c, allowed, from, t)
    ensures Became(s, t, k, p, Unlabelling(p), s.endpoints - {AddressKey(k, p.address.value)})
    ensures InWork(t, k, p, Unlabelling(p)) && t.endpoints == s.endpoints - {AddressKey(k, p.address.value)}
  {
    hide Start, Leads, Permits, Became, IpName;
    var s1 := BeginLeave(c, allowed, from, s, k, p);
    t := ReleaseStep(c, allowed, from, s1, k, p);
    BecameThen(s, s1, t, k, p, Releasing(p), s.endpoints, p, Unlabelling(p), t.endpoints);
  }

  lemma BeginLeave(c: Config, allowed: Steps, from: State, s: State, k: Key, p: Peer) returns (t: State)
    requires c.Valid() && Permits(allowed) && Leads(c, allowed, from, s) && AtRest(s, k, p)
    requires Start(p, Missing) == Releasing(p)
    ensures Leads(c, allowed, from, t) && Became(s, t, k, p, Releasing(p), s.endpoints)
    ensures InWork(t, k, p, Releasing(p)) && t.endpoints == s.endpoints
  {
    hide Leads, Start;
    BeginStep(c, allowed, from, s, k, p, Missing);
    Moves(s, k, Releasing(p));
    t := Doing(s, k, Releasing(p));
  }

  lemma ReleaseStep(c: Config, allowed: Steps, from: State, s: State, k: Key, p: Peer) returns (t: State)
    requires c.Valid() && Permits(allowed) && Leads(c, allowed, from, s) && InWork(s, k, p, Releasing(p))
    requires p.address.Some?
    ensures Leads(c, allowed, from, t)
    ensures Became(s, t, k, p, Unlabelling(p), s.endpoints - {AddressKey(k, p.address.value)})
    ensures InWork(t, k, p, Unlabelling(p)) && t.endpoints == s.endpoints - {AddressKey(k, p.address.value)}
  {
    var e := Release(k, true);
    ReleaseIs(c, s, k, p, p);
    hide Leads, Permits, Enabled, Apply, IpName;
    PermitsWork(allowed, s, e);
    Extend(c, allowed, from, s, e);
    t := Doing(DoCollect(s, AddressKey(k, p.address.value)), k, Unlabelling(p));
    assert s.peers[k := p] == s.peers;
  }

  lemma ReleaseIs(c: Config, s: State, k: Key, p: Peer, copy: Peer)
    requires c.Valid() && InWork(s, k, p, Releasing(copy)) && copy.address.Some?
    ensures Enabled(c, s, Release(k, true))
    ensures Apply(c, s, Release(k, true)) ==
      Doing(DoCollect(s, AddressKey(k, copy.address.value)), k, Unlabelling(copy))
  {
    hide Doing, DoCollect, IpName;
  }

  /** The labels are removed after a release from the stored copy. */
  lemma UnlabelStep(c: Config, allowed: Steps, from: State, s: State, k: Key, p: Peer) returns (t: State)
    requires c.Valid() && Permits(allowed) && Leads(c, allowed, from, s)
    requires InWork(s, k, p, Unlabelling(p)) && Unlabelled(p) != p
    ensures Leads(c, allowed, from, t) && Became(s, t, k, Unlabelled(p), Clearing(Unlabelled(p)), s.endpoints)
    ensures InWork(t, k, Unlabelled(p), Clearing(Unlabelled(p))) && t.endpoints == s.endpoints
  {
    var e := Unlabel(k, Applied);
    UnlabelIs(c, s, k, p);
    hide Leads, Permits, Enabled, Apply, Became, Unlabelled, NetworkLabels;
    PermitsWork(allowed, s, e);
    t := StoreStep(c, allowed, from, s, k, e, Unlabelled(p), Clearing(Unlabelled(p)));
  }

  lemma UnlabelIs(c: Config, s: State, k: Key, p: Peer)
    requires c.Valid() && InWork(s, k, p, Unlabelling(p)) && Unlabelled(p) != p
    ensures Enabled(c, s, Unlabel(k, Applied))
    ensures Apply(c, s, Unlabel(k, Applied)) == Doing(Storing(s, k, Unlabelled(p)), k, Clearing(Unlabelled(p)))
  {
    Works(c, s, k, Unlabelling(p), Applied);
    hide Enabled, Apply, Doing, Storing, MergeMeta, Unlabelled, NetworkLabels;
    FreshMerge(p, Unlabelled(p));
  }

  lemma ClearStep(c: Config, allowed: Steps, from: State, s: State, k: Key, p: Peer) returns (t: State)
    requires c.Valid() && Permits(allowed) && Leads(c, allowed, from, s) && InWork(s, k, p, Clearing(p))
    ensures Leads(c, allowed, from, t) && Became(s, t, k, Cleared(p), Idle, s.endpoints)
    ensures AtRest(t, k, Cleared(p)) && t.endpoints == s.endpoints
  {
    var e := Clear(k, Applied);
    ClearIs(c, s, k, p);
    hide Leads, Permits, Enabled, Apply, Became;
    PermitsWork(allowed, s, e);
    t := StoreStep(c, allowed, from, s, k, e, Cleared(p), Idle);
  }

  lemma ClearIs(c: Config, s: State, k: Key, p: Peer)
    requires c.Valid() && InWork(s, k, p, Clearing(p))
    ensures Enabled(c, s, Clear(k, Applied))
    ensures Apply(c, s, Clear(k, Applied)) == Doing(Storing(s, k, Cleared(p)), k, Idle)
  {
    Works(c, s, k, Clearing(p), Applied);
    hide Enabled, Apply, Doing, Storing, MergeStatus;
    FreshMerge(p, Cleared(p));
  }
}
