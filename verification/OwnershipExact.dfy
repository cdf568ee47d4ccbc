/** None of the clauses that keep addresses apart can be dropped: for every pool and for each clause there is
    a run from the empty store that keeps all the others and ends with two peers on one address. And a list
    leads a peer to a second endpoint exactly when it hides the first one and leaves a candidate. */
module OwnershipExact {
  import opened Prelude
  import opened Ipv4
  import opened KeyNames
  import opened Ipam
  import opened Peers
  import opened ControlPlane
  import opened Ownership
  import opened Runs
  import PeerReconciler

  /** Three peers and a network of one namespace. */
  datatype Cast = Cast(ns: string, net: string, p: Key, q: Key, r: Key) {
    predicate Valid() { p.ns == ns && q.ns == ns && r.ns == ns && p != q && q != r && p != r }

    function Net(): Key { Key(ns, net) }
  }

  /** The steps that keep every clause but one. */
  ghost function Others(clause: Clause): Steps {
    iset x: (State, Event) | forall d: Clause | d != clause :: Keeps(d, x.0, x.1)
  }

  lemma OthersPermit(clause: Clause)
    ensures Permits(Others(clause))
  {
    forall s: State, e: Event | Gentle(s, e) ensures (s, e) in Others(clause) {
      GentleKeeps(s, e);
    }
  }

  lemma GentleKeeps(s: State, e: Event)
    requires Gentle(s, e)
    ensures forall d: Clause :: Keeps(d, s, e)
  {
    hide OwnListed, OwnsNone, AddressKey, InUse, NoLabelsLeft, Decide;
  }

  // ---------------------------------------------------------------- the pieces

  /** The address everybody gets. */
  function First(c: Config): Addr requires c.Valid() { HostLow(c.pool.Start()) }

  function Member(c: Config, x: Cast): Peer
    requires c.Valid() && x.Valid()
  {
    Joined(Labelled(c.digest, Waiting(Some(x.net))), First(c))
  }

  lemma FirstIsHost(c: Config)
    requires c.Valid()
    ensures First(c) <= HostHigh(c.pool.Start(), c.pool.subnetMask)
  {
    FirstSubnet(c.pool);
    HostRange(c.pool.Start(), c.pool.subnetMask);
  }

  /** The network has its subnet, and there are no peers. */
  lemma Network(c: Config, x: Cast, allowed: Steps) returns (t: State)
    requires c.Valid() && x.Valid() && Permits(allowed)
    ensures Leads(c, allowed, EMPTY, t) && t.peers == map[] && t.endpoints == map[]
    ensures c.pool.Start() in Published(t, x.Net())
  {
    Stay(c, allowed, EMPTY);
    FirstSubnet(c.pool);
    hide Leads, Permits, LowestFree;
    t := Won(c, allowed, EMPTY, EMPTY, x.Net(), [], c.pool.Start());
  }

  /** A new peer joins and gets the address. */
  lemma NewMember(c: Config, x: Cast, allowed: Steps, s: State, k: Key) returns (t: State)
    requires c.Valid() && x.Valid() && Permits(allowed) && Leads(c, allowed, EMPTY, s)
    requires k !in s.peers && k.ns == x.ns && OwnsNone(s.endpoints, k) && AddressKey(k, First(c)) !in s.endpoints
    requires c.pool.Start() in Published(s, x.Net())
    ensures Leads(c, allowed, EMPTY, t) && Became(s, t, k, Member(c, x), Idle, WithEndpoint(s.endpoints, k, First(c)))
    ensures AtRest(t, k, Member(c, x)) && t.endpoints == WithEndpoint(s.endpoints, k, First(c))
  {
    var p := Waiting(Some(x.net));
    var s1 := Born(c, allowed, EMPTY, s, k, Some(x.net));
    assert Joins(s1, k, p, c.pool.Start());
    NoLabelYet(c.digest, p);
    FirstIsHost(c);
    hide Leads, Permits, Labelled, Joins, Became, WithEndpoint, IpName, HostLow, HostHigh, OwnsNone;
    t := JoinFirst(c, allowed, EMPTY, s1, k, p, c.pool.Start());
    BecameThen(s, s1, t, k, p, Idle, s.endpoints, Member(c, x), Idle, t.endpoints);
  }

  /** One peer, stored as p and at w. */
  predicate Solo(c: Config, x: Cast, s: State, p: Peer, w: Work, endpoints: Endpoints)
    requires c.Valid() && x.Valid()
  {
    s.peers.Keys == {x.p} && InWork(s, x.p, p, w) && s.endpoints == endpoints && c.pool.Start() in Published(s, x.Net())
  }

  lemma SoloThen(c: Config, x: Cast, s: State, t: State, p: Peer, w: Work, es: Endpoints, q: Peer, v: Work,
                 fs: Endpoints)
    requires c.Valid() && x.Valid() && Solo(c, x, s, p, w, es) && Became(s, t, x.p, q, v, fs)
    ensures Solo(c, x, t, q, v, fs) && p in t.past[x.p]
  {
  }

  /** The same, and a second peer that has the address. */
  predicate Duo(c: Config, x: Cast, s: State, p: Peer, w: Work)
    requires c.Valid() && x.Valid()
  {
    && s.peers.Keys == {x.p, x.q} && InWork(s, x.p, p, w) && AtRest(s, x.q, Member(c, x))
    && s.endpoints == WithEndpoint(map[], x.q, First(c)) && c.pool.Start() in Published(s, x.Net())
  }

  lemma DuoThen(c: Config, x: Cast, s: State, t: State, p: Peer, w: Work, q: Peer, v: Work)
    requires c.Valid() && x.Valid() && Duo(c, x, s, p, w) && Became(s, t, x.p, q, v, s.endpoints)
    ensures Duo(c, x, t, q, v) && s.past[x.p] <= t.past[x.p]
  {
    hide Member, WithEndpoint, First;
    RestsOn(s, t, x.q, x.p, Member(c, x), q, v, s.endpoints);
    PartThen(s, t, x.p, q, v, s.endpoints, x.Net());
    assert t.peers.Keys == s.peers.Keys;
    hide Became, AtRest, InWork, Published;
  }

  lemma PartThen(s: State, t: State, k: Key, q: Peer, v: Work, endpoints: Endpoints, n: Key)
    requires Became(s, t, k, q, v, endpoints)
    ensures InWork(t, k, q, v) && t.endpoints == endpoints && Published(t, n) == Published(s, n)
    ensures k in s.past ==> s.past[k] <= t.past[k]
  {
  }

  /** What the runs below have in common: one peer in the network. */
  lemma OneMember(c: Config, x: Cast, allowed: Steps) returns (t: State)
    requires c.Valid() && x.Valid() && Permits(allowed)
    ensures Leads(c, allowed, EMPTY, t) && Solo(c, x, t, Member(c, x), Idle, WithEndpoint(map[], x.p, First(c)))
  {
    var s := Network(c, x, allowed);
    hide Leads, Permits, Labelled, IpName, HostLow, HostHigh;
    t := NewMember(c, x, allowed, s, x.p);
  }

  /** A second peer gets the address that the first still shows. */
  lemma SecondMember(c: Config, x: Cast, allowed: Steps, s: State, p: Peer) returns (t: State)
    requires c.Valid() && x.Valid() && Permits(allowed) && Leads(c, allowed, EMPTY, s) && Solo(c, x, s, p, Idle, map[])
    ensures Leads(c, allowed, EMPTY, t) && Duo(c, x, t, p, Idle) && s.past[x.p] <= t.past[x.p]
    ensures p.address == Some(First(c)) ==> Share(t, x.p, x.q)
  {
    hide Leads, Permits, Labelled, IpName, HostLow, HostHigh;
    t := NewMember(c, x, allowed, s, x.q);
    if p.address == Some(First(c)) {
      DuoShares(c, x, t, p);
    }
  }

  lemma DropOnly(k: Key, a: Addr)
    ensures WithEndpoint(map[], k, a) - {AddressKey(k, a)} == map[]
  {
    hide IpName;
  }

  lemma MemberIsIn(c: Config, x: Cast)
    requires c.Valid() && x.Valid()
    ensures var p := Member(c, x);
      p.finalizer && p.phase == Ready && p.activeNet == Some(x.net) && p.address == Some(First(c))
    ensures Unlabelled(Gone(c, x)) != Gone(c, x) && Gone(c, x).address == Some(First(c))
    ensures Start(Gone(c, x), Missing) == Releasing(Gone(c, x))
  {
    var p := Departing(Member(c, x));
    assert NetworkLabels(p.labels) != {} && NetworkLabels(Unlabelled(p).labels) == {};
  }

  /** The version of the first peer that its leave starts from. */
  function Gone(c: Config, x: Cast): Peer requires c.Valid() && x.Valid() { Departing(Member(c, x)) }

  /** The first peer has just released the address. */
  lemma Released(c: Config, x: Cast, allowed: Steps) returns (t: State)
    requires c.Valid() && x.Valid() && Permits(allowed)
    ensures Leads(c, allowed, EMPTY, t) && Solo(c, x, t, Gone(c, x), Unlabelling(Gone(c, x)), map[])
  {
    var s := OneMember(c, x, allowed);
    MemberIsIn(c, x);
    DropOnly(x.p, First(c));
    hide Leads, Permits, Member, Unlabelled, IpName, HostLow, Became, WithEndpoint, Departing, Start;
    assert AtRest(s, x.p, Member(c, x));
    t := Unplug(c, allowed, EMPTY, s, x.p, Member(c, x));
    SoloThen(c, x, s, t, Member(c, x), Idle, s.endpoints, Gone(c, x), Unlabelling(Gone(c, x)), t.endpoints);
  }

  lemma Unlabels(c: Config, x: Cast, allowed: Steps) returns (t: State)
    requires c.Valid() && x.Valid() && Permits(allowed)
    ensures Leads(c, allowed, EMPTY, t)
    ensures Solo(c, x, t, Unlabelled(Gone(c, x)), Clearing(Unlabelled(Gone(c, x))), map[])
    ensures Gone(c, x) in t.past[x.p]
  {
    var s := Released(c, x, allowed);
    MemberIsIn(c, x);
    hide Leads, Permits, Gone, Unlabelled, NetworkLabels, Became, Start, Member;
    t := UnlabelStep(c, allowed, EMPTY, s, x.p, Gone(c, x));
    SoloThen(c, x, s, t, Gone(c, x), Unlabelling(Gone(c, x)), map[],
             Unlabelled(Gone(c, x)), Clearing(Unlabelled(Gone(c, x))), map[]);
  }

  /** The first peer has left, and another one has the address. */
  lemma Replaced(c: Config, x: Cast, allowed: Steps) returns (t: State)
    requires c.Valid() && x.Valid() && Permits(allowed)
    ensures Leads(c, allowed, EMPTY, t) && Duo(c, x, t, Cleared(Unlabelled(Gone(c, x))), Idle)
    ensures Gone(c, x) in t.past[x.p]
  {
    var s := Unlabels(c, x, allowed);
    hide Leads, Permits, Gone, Unlabelled, NetworkLabels, Became, Cleared, Duo;
    var p, q := Unlabelled(Gone(c, x)), Cleared(Unlabelled(Gone(c, x)));
    var s1 := ClearStep(c, allowed, EMPTY, s, x.p, p);
    assert Gone(c, x) in s1.past[x.p] by { PastKept(s, s1, x.p, q); }
    SoloThen(c, x, s, s1, p, Clearing(p), map[], q, Idle, map[]);
    t := SecondMember(c, x, allowed, s1, q);
  }

  lemma PastKept(s: State, t: State, k: Key, p: Peer)
    requires Became(s, t, k, p, Idle, s.endpoints) && k in s.past
    ensures k in t.past && s.past[k] <= t.past[k]
  {
  }

  // ---------------------------------------------------------------- one run for each clause

  /** An endpoint in use is collected. */
  lemma WithoutNotCollected(c: Config, x: Cast) returns (t: State)
    requires c.Valid() && x.Valid()
    ensures Leads(c, Others(NotCollected), EMPTY, t) && Share(t, x.p, x.q)
  {
    hide Leads, Permits, Member, IpName, HostLow, Others, Unlabelled, NetworkLabels;
    var allowed := Others(NotCollected);
    OthersPermit(NotCollected);
    var s := OneMember(c, x, allowed);
    MemberIsIn(c, x);
    DropOnly(x.p, First(c));
    var e := Collect(AddressKey(x.p, First(c)));
    OnlyItsOwn(s, e);
    Extend(c, allowed, EMPTY, s, e);
    t := SecondMember(c, x, allowed, DoCollect(s, e.key), Member(c, x));
  }

  /** An event concerns no clause but its own. */
  lemma OnlyItsOwn(s: State, e: Event)
    ensures e.Collect? ==> (s, e) in Others(NotCollected)
    ensures e.Abort? ==> (s, e) in Others(LeavesFinish)
    ensures e.Clear? ==> (s, e) in Others(StatusCleared)
    ensures e.Unlabel? ==> (s, e) in Others(LabelsRemoved)
    ensures e.Begin? ==> (s, e) in Others(LeavesKnown)
    ensures e.List? ==> (s, e) in Others(NoPhantoms)
  {
    hide InUse, NoLabelsLeft, OwnListed, AddressKey, Decide;
  }

  lemma AbortIs(c: Config, s: State, k: Key)
    requires c.Valid() && InFlight(s, k)
    ensures Enabled(c, s, Abort(k)) && Apply(c, s, Abort(k)) == Doing(s, k, Idle)
  {
    hide Doing;
  }

  lemma BeginIs(c: Config, s: State, k: Key, copy: Peer)
    requires c.Valid() && InFlight(s, k) && s.work[k] == Idle && copy in s.past[k]
    ensures Enabled(c, s, Begin(k, copy, Missing))
    ensures Apply(c, s, Begin(k, copy, Missing)) == Doing(s, k, Start(copy, Missing))
  {
    hide Doing, Start;
  }

  lemma ListIs(c: Config, s: State, k: Key, w: Work, listed: seq<Listed>, a: Addr)
    requires c.Valid() && InFlight(s, k) && s.work[k] == w && w.Listing? && OwnListed(listed, k.name) == Some(a)
    ensures Enabled(c, s, List(k, listed)) && Apply(c, s, List(k, listed)) == Doing(s, k, Recording(w.copy, a))
  {
    hide Doing, OwnListed;
  }

  /** An event of the first peer's reconcile that stores nothing. */
  lemma SoloMove(c: Config, x: Cast, allowed: Steps, s: State, p: Peer, w: Work, e: Event, v: Work) returns (t: State)
    requires c.Valid() && x.Valid() && Leads(c, allowed, EMPTY, s) && Solo(c, x, s, p, w, map[])
    requires Enabled(c, s, e) && (s, e) in allowed && Apply(c, s, e) == Doing(s, x.p, v)
    ensures Leads(c, allowed, EMPTY, t) && Solo(c, x, t, p, v, map[])
  {
    hide Leads, Enabled, Apply, Became, Doing;
    t := MoveStep(c, allowed, EMPTY, s, x.p, e, v);
    SoloThen(c, x, s, t, p, w, map[], p, v, map[]);
  }

  /** A leave is cut off after its release. */
  lemma WithoutLeavesFinish(c: Config, x: Cast) returns (t: State)
    requires c.Valid() && x.Valid()
    ensures Leads(c, Others(LeavesFinish), EMPTY, t) && Share(t, x.p, x.q)
  {
    var allowed, d := Others(LeavesFinish), Gone(c, x);
    OthersPermit(LeavesFinish);
    var s := Released(c, x, allowed);
    MemberIsIn(c, x);
    var e := Abort(x.p);
    hide Leads, Permits, Gone, Others, Unlabelled, Enabled, Apply, Duo, Start, Share, Member;
    OnlyItsOwn(s, e);
    AbortIs(c, s, x.p);
    hide Solo;
    var s1 := SoloMove(c, x, allowed, s, d, Unlabelling(d), e, Idle);
    t := SecondMember(c, x, allowed, s1, d);
  }

  /** The clear after a release is lost. */
  lemma WithoutStatusCleared(c: Config, x: Cast) returns (t: State)
    requires c.Valid() && x.Valid()
    ensures Leads(c, Others(StatusCleared), EMPTY, t) && Share(t, x.p, x.q)
  {
    var allowed, d := Others(StatusCleared), Unlabelled(Gone(c, x));
    OthersPermit(StatusCleared);
    var s := Unlabels(c, x, allowed);
    MemberIsIn(c, x);
    var e := Clear(x.p, Conflict);
    assert d.address == Some(First(c));
    hide Leads, Permits, Gone, Others, Unlabelled, Enabled, Apply, Duo, Start, Share, Member, SameOwnLabels;
    OnlyItsOwn(s, e);
    Works(c, s, x.p, Clearing(d), Conflict);
    hide Solo;
    var s1 := SoloMove(c, x, allowed, s, d, Clearing(d), e, Idle);
    t := SecondMember(c, x, allowed, s1, d);
  }

  /** The removal of the labels is refused, and the peer marked as failed. */
  lemma WithoutLabelsRemoved(c: Config, x: Cast) returns (t: State)
    requires c.Valid() && x.Valid()
    ensures Leads(c, Others(LabelsRemoved), EMPTY, t) && Share(t, x.p, x.q)
  {
    hide Leads, Permits, Gone, Others, Unlabelled, Enabled, Apply, Duo, Start, Share, Member, SameOwnLabels;
    var allowed, d := Others(LabelsRemoved), Gone(c, x);
    OthersPermit(LabelsRemoved);
    var s := Released(c, x, allowed);
    MemberIsIn(c, x);
    var e := Unlabel(x.p, Refused);
    OnlyItsOwn(s, e);
    Works(c, s, x.p, Unlabelling(d), Refused);
    hide Solo;
    var s1 := SoloMove(c, x, allowed, s, d, Unlabelling(d), e, Failing(d));
    var s2 := SoloFails(c, x, allowed, s1, d);
    t := SecondMember(c, x, allowed, s2, d.(phase := Failed));
  }

  lemma SoloFails(c: Config, x: Cast, allowed: Steps, s: State, d: Peer) returns (t: State)
    requires c.Valid() && x.Valid() && Permits(allowed) && Leads(c, allowed, EMPTY, s)
    requires Solo(c, x, s, d, Failing(d), map[])
    ensures Leads(c, allowed, EMPTY, t) && Solo(c, x, t, d.(phase := Failed), Idle, map[])
  {
    hide Leads, Permits, Doing, Storing, Became;
    var q := d.(phase := Failed);
    WriteStep(c, allowed, EMPTY, s, x.p, d, q);
    Stores(s, x.p, q, Idle);
    t := Doing(Storing(s, x.p, q), x.p, Idle);
    SoloThen(c, x, s, t, d, Failing(d), map[], q, Idle, map[]);
  }

  /** A reconcile leaves again with an old copy, and releases what is another peer's by now. */
  lemma WithoutLeavesKnown(c: Config, x: Cast) returns (t: State)
    requires c.Valid() && x.Valid()
    ensures Leads(c, Others(LeavesKnown), EMPTY, t) && Share(t, x.q, x.r)
  {
    OthersPermit(LeavesKnown);
    hide Leads, Permits, Others, Gone, Duo;
    var s, p := LeavesAgain(c, x);
    var s1 := WrongRelease(c, x, Others(LeavesKnown), s, p);
    t := ThirdMember(c, x, Others(LeavesKnown), s1);
  }

  lemma DuoWorks(c: Config, x: Cast, s: State, p: Peer, w: Work)
    requires c.Valid() && x.Valid() && Duo(c, x, s, p, w)
    ensures InWork(s, x.p, p, w)
  {
  }

  lemma WrongRelease(c: Config, x: Cast, allowed: Steps, s: State, p: Peer) returns (t: State)
    requires c.Valid() && x.Valid() && Permits(allowed)
    requires Leads(c, allowed, EMPTY, s) && Duo(c, x, s, p, Releasing(Gone(c, x)))
    ensures Leads(c, allowed, EMPTY, t)
    ensures t.peers.Keys == {x.p, x.q} && AtRest(t, x.q, Member(c, x)) && t.endpoints == map[]
    ensures c.pool.Start() in Published(t, x.Net())
  {
    hide Leads, Permits, Gone, Unlabelled, Doing, DoCollect, First, Member, Duo, AtRest, Published, SameOwnLabels;
    ReleasesAgain(c, x, allowed, s, p);
    t := Doing(DoCollect(s, AddressKey(x.p, First(c))), x.p, Unlabelling(Gone(c, x)));
    AfterWrongRelease(c, x, s, t, p, Gone(c, x));
  }

  lemma ReleasesAgain(c: Config, x: Cast, allowed: Steps, s: State, p: Peer)
    requires c.Valid() && x.Valid() && Permits(allowed)
    requires Leads(c, allowed, EMPTY, s) && Duo(c, x, s, p, Releasing(Gone(c, x)))
    ensures Leads(c, allowed, EMPTY, Doing(DoCollect(s, AddressKey(x.p, First(c))), x.p, Unlabelling(Gone(c, x))))
  {
    hide Leads, Permits, Gone, Unlabelled, Start, Doing, DoCollect, IpName, First, Member, Duo, SameOwnLabels, InWork;
    MemberIsIn(c, x);
    DuoWorks(c, x, s, p, Releasing(Gone(c, x)));
    ReleaseFrom(c, allowed, s, x.p, p, Gone(c, x));
  }

  lemma ReleaseFrom(c: Config, allowed: Steps, s: State, k: Key, p: Peer, d: Peer)
    requires c.Valid() && Permits(allowed) && Leads(c, allowed, EMPTY, s)
    requires InWork(s, k, p, Releasing(d)) && d.address.Some?
    ensures Leads(c, allowed, EMPTY, Doing(DoCollect(s, AddressKey(k, d.address.value)), k, Unlabelling(d)))
  {
    hide Leads, Permits, Doing, DoCollect, IpName, Enabled, Apply, InWork;
    ReleaseIs(c, s, k, p, d);
    PermitsWork(allowed, s, Release(k, true));
    Extend(c, allowed, EMPTY, s, Release(k, true));
  }

  lemma LeavesAgain(c: Config, x: Cast) returns (t: State, p: Peer)
    requires c.Valid() && x.Valid()
    ensures Leads(c, Others(LeavesKnown), EMPTY, t) && Duo(c, x, t, p, Releasing(Gone(c, x)))
  {
    var allowed, d := Others(LeavesKnown), Gone(c, x);
    OthersPermit(LeavesKnown);
    var s := Replaced(c, x, allowed);
    MemberIsIn(c, x);
    p := Cleared(Unlabelled(Gone(c, x)));
    var e := Begin(x.p, d, Missing);
    hide Leads, Permits, Others, Unlabelled, Start, Enabled, Apply, Became, Member, Cleared, Gone, WithEndpoint, First;
    OnlyItsOwn(s, e);
    BeginIs(c, s, x.p, d);
    t := MoveStep(c, allowed, EMPTY, s, x.p, e, Releasing(d));
    DuoThen(c, x, s, t, p, Idle, p, Releasing(d));
  }

  lemma AfterWrongRelease(c: Config, x: Cast, s: State, t: State, p: Peer, d: Peer)
    requires c.Valid() && x.Valid() && Duo(c, x, s, p, Releasing(d))
    requires t == Doing(DoCollect(s, AddressKey(x.p, First(c))), x.p, Unlabelling(d))
    ensures t.peers.Keys == {x.p, x.q} && AtRest(t, x.q, Member(c, x)) && t.endpoints == map[]
    ensures c.pool.Start() in Published(t, x.Net())
  {
    hide Member, IpName, HostLow;
    DropOnly(x.q, First(c));
  }

  lemma ThirdMember(c: Config, x: Cast, allowed: Steps, s: State) returns (t: State)
    requires c.Valid() && x.Valid() && Permits(allowed) && Leads(c, allowed, EMPTY, s)
    requires s.peers.Keys == {x.p, x.q} && AtRest(s, x.q, Member(c, x)) && s.endpoints == map[]
    requires c.pool.Start() in Published(s, x.Net())
    ensures Leads(c, allowed, EMPTY, t) && Share(t, x.q, x.r)
  {
    assert OwnsNone(s.endpoints, x.r);
    hide Leads, Permits, Member, IpName, HostLow, HostHigh, First, OwnsNone, WithEndpoint;
    t := NewMember(c, x, allowed, s, x.r);
    MemberIsIn(c, x);
    hide Gone, Unlabelled, Start;
    RestsOn(s, t, x.q, x.r, Member(c, x), Member(c, x), Idle, t.endpoints);
    BothAtRest(t, x.q, x.r, Member(c, x));
  }

  lemma BothAtRest(s: State, q: Key, r: Key, p: Peer)
    requires AtRest(s, q, p) && AtRest(s, r, p) && q != r && q.ns == r.ns && p.address.Some?
    ensures Share(s, q, r)
  {
  }

  lemma RestsOn(s: State, t: State, q: Key, r: Key, p: Peer, m: Peer, v: Work, endpoints: Endpoints)
    requires AtRest(s, q, p) && Became(s, t, r, m, v, endpoints) && q != r
    ensures AtRest(t, q, p)
  {
  }

  /** A list shows a peer the endpoint it once had. */
  lemma WithoutNoPhantoms(c: Config, x: Cast) returns (t: State)
    requires c.Valid() && x.Valid()
    ensures Leads(c, Others(NoPhantoms), EMPTY, t) && Share(t, x.p, x.q)
  {
    var allowed, a := Others(NoPhantoms), First(c);
    OthersPermit(NoPhantoms);
    var s, p := Rejoining(c, x, allowed);
    MemberIsIn(c, x);
    var listed := [Listed(IpName(a), Endpoint(a, x.p.name))];
    var e := List(x.p, listed);
    assert OwnListed(listed, x.p.name) == Some(a);
    hide Leads, Permits, IpName, HostLow, Others, OwnListed, Member, Gone, Enabled, Apply, Became, Start;
    hide WithEndpoint, Share;
    OnlyItsOwn(s, e);
    ListIs(c, s, x.p, Listing(p, c.pool.Start()), listed, a);
    var s1 := MoveStep(c, allowed, EMPTY, s, x.p, e, Recording(p, a));
    DuoThen(c, x, s, s1, p, Listing(p, c.pool.Start()), p, Recording(p, a));
    t := RecordStep(c, allowed, EMPTY, s1, x.p, p, a);
    DuoThen(c, x, s1, t, p, Recording(p, a), Joined(p, a), Idle);
    DuoShares(c, x, t, Joined(p, a));
  }

  lemma DuoShares(c: Config, x: Cast, s: State, p: Peer)
    requires c.Valid() && x.Valid() && Duo(c, x, s, p, Idle) && p.address == Some(First(c))
    ensures Share(s, x.p, x.q)
  {
    MemberIsIn(c, x);
    hide Member, WithEndpoint, Gone, Unlabelled, Start, First;
  }

  /** The first peer is sent to the network again and gets as far as the list. */
  lemma Rejoining(c: Config, x: Cast, allowed: Steps) returns (t: State, p: Peer)
    requires c.Valid() && x.Valid() && Permits(allowed)
    ensures Leads(c, allowed, EMPTY, t) && Duo(c, x, t, p, Listing(p, c.pool.Start()))
  {
    var base, p0 := c.pool.Start(), Cleared(Unlabelled(Gone(c, x)));
    var p1 := p0.(specNet := Some(x.net));
    var p2 := p1.(phase := Pending);
    p := Labelled(c.digest, p2);
    Rejoinable(c, x);
    hide Leads, Permits, Gone, Unlabelled, Labelled, NetworkLabels, Start, Decide, Became, Member, Cleared;
    hide WithEndpoint, First;
    var s := Replaced(c, x, allowed);
    var s1 := EditStep(c, allowed, EMPTY, s, x.p, p0, Some(x.net));
    DuoThen(c, x, s, s1, p0, Idle, p1, Idle);
    var s2 := PatchRound(c, allowed, EMPTY, s1, x.p, p1, p2, Missing);
    DuoThen(c, x, s1, s2, p1, Idle, p2, Idle);
    var s3 := LabelRound(c, allowed, EMPTY, s2, x.p, p2, base);
    DuoThen(c, x, s2, s3, p2, Idle, p, Idle);
    t := ToListing(c, allowed, EMPTY, s3, x.p, p, base);
    DuoThen(c, x, s3, t, p, Idle, p, Listing(p, base));
  }

  lemma Rejoinable(c: Config, x: Cast)
    requires c.Valid() && x.Valid()
    ensures var p1 := Cleared(Unlabelled(Gone(c, x))).(specNet := Some(x.net)); var p2 := p1.(phase := Pending);
      && Start(p1, Missing) == Patching(p1, p2) && Decide(p2) == Join && Labelled(c.digest, p2) != p2
      && Decide(Labelled(c.digest, p2)) == Join && Labelled(c.digest, Labelled(c.digest, p2)) == Labelled(c.digest, p2)
  {
    var p1 := Cleared(Unlabelled(Gone(c, x))).(specNet := Some(x.net));
    var p2 := p1.(phase := Pending);
    assert p1.finalizer && NetworkLabels(p1.labels) == {};
    PeerReconciler.BareNotLabelled(c.digest, p2);
    PeerReconciler.LabelledTwice(c.digest, p2);
    hide Unlabelled, Labelled, NetworkLabels;
  }

  /** Each clause is needed: for any pool, any three peers of a namespace and any network there is a run that
      keeps all the other clauses and ends with two of the peers on one address. */
  lemma ClauseIsNeeded(c: Config, x: Cast, clause: Clause)
    returns (states: seq<State>, events: seq<Event>, p: Key, q: Key)
    requires c.Valid() && x.Valid()
    ensures IsRun(c, states, events) && Share(states[|events|], p, q)
    ensures forall i, d: Clause | 0 <= i < |events| && d != clause :: Keeps(d, states[i], events[i])
  {
    hide Leads, Keeps, Share;
    var t: State;
    p, q := x.p, x.q;
    match clause {
      case LeavesKnown =>
        t := WithoutLeavesKnown(c, x);
        p, q := x.q, x.r;
      case NoPhantoms => t := WithoutNoPhantoms(c, x);
      case NotCollected => t := WithoutNotCollected(c, x);
      case LabelsRemoved => t := WithoutLabelsRemoved(c, x);
      case StatusCleared => t := WithoutStatusCleared(c, x);
      case LeavesFinish => t := WithoutLeavesFinish(c, x);
    }
    states, events := PathIsRun(c, Others(clause), t);
  }

  ghost predicate KeepsAll(kept: set<Clause>, states: seq<State>, events: seq<Event>)
    requires |states| == |events| + 1
  {
    forall i, d | 0 <= i < |events| && d in kept :: Keeps(d, states[i], events[i])
  }

  /** No run that keeps these clauses ends with two peers on one address. */
  ghost predicate NeverShared(c: Config, kept: set<Clause>)
    requires c.Valid()
  {
    forall states, events, p, q | IsRun(c, states, events) && KeepsAll(kept, states, events) ::
      !Share(states[|events|], p, q)
  }

  /** The runs that keep a set of clauses never put two peers on one address exactly when the set has all six. */
  lemma NeverSharedIff(c: Config, kept: set<Clause>)
    requires c.Valid()
    ensures NeverShared(c, kept) <==> forall clause :: clause in kept
  {
    hide Next, Keeps, Share;
    if forall clause :: clause in kept {
      forall states, events, p, q | IsRun(c, states, events) && KeepsAll(kept, states, events)
        ensures !Share(states[|events|], p, q)
      {
        forall i, d: Clause | 0 <= i < |events| ensures Keeps(d, states[i], events[i]) {
          assert d in kept;
        }
        AddressesNotShared(c, states, events, |events|, p, q);
      }
    } else {
      var clause :| clause !in kept;
      var x := Cast("", "", Key("", "a"), Key("", "b"), Key("", "c"));
      var states, events, p, q := ClauseIsNeeded(c, x, clause);
      assert KeepsAll(kept, states, events);
    }
  }

  // ---------------------------------------------------------------- lists and second endpoints

  /** A host of the subnet that neither the list nor the store has. */
  predicate Candidate(c: Config, endpoints: Endpoints, k: Key, base: Addr, listed: seq<Listed>, a: int)
    requires c.Valid()
  {
    && HostLow(base) <= a <= HostHigh(base, c.pool.subnetMask)
    && IpName(a) !in ListedNames(listed) && AddressKey(k, a) !in endpoints
  }

  /** A reconcile gets a list and then makes n turns of the candidate loop, with no failure and nobody else
      at work. */
  function ListThenTry(c: Config, s: State, k: Key, listed: seq<Listed>, n: nat): State
    requires c.Valid() && InFlight(s, k) && s.work[k].Listing?
  {
    if n == 0 then DoList(s, k, s.work[k].copy, s.work[k].base, listed)
    else
      var t := ListThenTry(c, s, k, listed, n - 1);
      if k in t.work && t.work[k].Scanning? then
        DoTry(c, t, k, t.work[k].copy, t.work[k].base, t.work[k].next, t.work[k].used, true)
      else t
  }

  /** The list and the tries of one peer's reconcile. */
  predicate ListsOrTries(k: Key, e: Event) { (e.List? || e.Try?) && e.k == k }

  ghost function Claiming(k: Key): Steps { iset x: (State, Event) | ListsOrTries(k, x.1) }

  /** These are paths of the control plane. */
  lemma {:induction false} ListThenTryLeads(c: Config, s: State, k: Key, listed: seq<Listed>, n: nat)
    requires c.Valid() && InFlight(s, k) && s.work[k].Listing?
    ensures Leads(c, Claiming(k), s, ListThenTry(c, s, k, listed, n)) && InFlight(ListThenTry(c, s, k, listed, n), k)
  {
    hide Leads, DoList, DoTry, Claiming;
    if n == 0 {
      ListLeads(c, s, k, listed);
    } else {
      ListThenTryLeads(c, s, k, listed, n - 1);
      var t := ListThenTry(c, s, k, listed, n - 1);
      if t.work[k].Scanning? {
        TryLeads(c, s, t, k);
      }
    }
  }

  lemma ListLeads(c: Config, s: State, k: Key, listed: seq<Listed>)
    requires c.Valid() && InFlight(s, k) && s.work[k].Listing?
    ensures var t := DoList(s, k, s.work[k].copy, s.work[k].base, listed); Leads(c, Claiming(k), s, t) && InFlight(t, k)
  {
    var e := List(k, listed);
    ListApplies(c, s, k, listed);
    Stay(c, Claiming(k), s);
    assert (s, e) in Claiming(k);
    assert InFlight(DoList(s, k, s.work[k].copy, s.work[k].base, listed), k) by { hide OwnListed; }
    hide Leads, Enabled, Apply, DoList, Claiming;
    Extend(c, Claiming(k), s, s, e);
  }

  lemma TryLeads(c: Config, s: State, t: State, k: Key)
    requires c.Valid() && Leads(c, Claiming(k), s, t) && InFlight(t, k) && t.work[k].Scanning?
    ensures var w := t.work[k]; var u := DoTry(c, t, k, w.copy, w.base, w.next, w.used, true);
      Leads(c, Claiming(k), s, u) && InFlight(u, k)
  {
    var e, w := Try(k, true), t.work[k];
    TryApplies(c, t, k);
    assert (t, e) in Claiming(k);
    TryFlies(c, t, k, w.copy, w.base, w.next, w.used);
    hide Leads, Enabled, Apply, DoTry, Claiming;
    Extend(c, Claiming(k), s, t, e);
  }

  lemma ListApplies(c: Config, s: State, k: Key, listed: seq<Listed>)
    requires c.Valid() && InFlight(s, k) && s.work[k].Listing?
    ensures Enabled(c, s, List(k, listed))
    ensures Apply(c, s, List(k, listed)) == DoList(s, k, s.work[k].copy, s.work[k].base, listed)
  {
    hide DoList;
  }

  lemma TryFlies(c: Config, t: State, k: Key, copy: Peer, base: Addr, next: int, used: set<string>)
    requires c.Valid() && InFlight(t, k)
    ensures InFlight(DoTry(c, t, k, copy, base, next, used, true), k)
  {
    hide IpName, HostHigh, Doing, Holding, InFlight;
    Flies(t, k, next, Failing(copy));
    Flies(t, k, next, Scanning(copy, base, next + 1, used));
    if 0 <= next < TWO32 {
      Flies(t, k, next, Recording(copy, next));
    }
  }

  lemma Flies(t: State, k: Key, a: int, w: Work)
    requires InFlight(t, k)
    ensures InFlight(Doing(t, k, w), k)
    ensures 0 <= a < TWO32 ==> InFlight(Doing(Holding(t, k, a), k, w), k)
  {
    hide IpName;
  }

  lemma TryApplies(c: Config, s: State, k: Key)
    requires c.Valid() && InFlight(s, k) && s.work[k].Scanning?
    ensures var w := s.work[k];
      Enabled(c, s, Try(k, true)) && Apply(c, s, Try(k, true)) == DoTry(c, s, k, w.copy, w.base, w.next, w.used, true)
  {
    hide DoTry;
  }

  /** The three ways such a scan can stand: the endpoints before it, those now, and the work now. */
  ghost predicate StillScanning(c: Config, before: Endpoints, now: Endpoints, w: Work, k: Key, copy: Peer, base: Addr,
                                listed: seq<Listed>, next: int)
    requires c.Valid()
  {
    && w == Scanning(copy, base, next, ListedNames(listed)) && now == before
    && HostLow(base) <= next && forall a: Addr | a < next :: !Candidate(c, before, k, base, listed, a)
  }

  ghost predicate HasClaimed(c: Config, before: Endpoints, now: Endpoints, w: Work, k: Key, base: Addr,
                             listed: seq<Listed>)
    requires c.Valid()
  {
    && !w.Scanning?
    && exists a: Addr :: Candidate(c, before, k, base, listed, a) && now == WithEndpoint(before, k, a)
  }

  ghost predicate HasFailed(c: Config, before: Endpoints, now: Endpoints, w: Work, k: Key, base: Addr,
                            listed: seq<Listed>)
    requires c.Valid()
  {
    !w.Scanning? && now == before && forall a: Addr :: !Candidate(c, before, k, base, listed, a)
  }

  /** A turn of the candidate loop, by the candidate's case. */
  lemma TryOutcome(c: Config, t: State, k: Key, copy: Peer, base: Addr, next: nat, used: set<string>)
    requires c.Valid()
    ensures DoTry(c, t, k, copy, base, next, used, true) ==
      if next > HostHigh(base, c.pool.subnetMask) then Doing(t, k, Failing(copy))
      else if IpName(next) in used || AddressKey(k, next) in t.endpoints then
        Doing(t, k, Scanning(copy, base, next + 1, used))
      else Doing(Holding(t, k, next), k, Recording(copy, next))
  {
    hide IpName, HostHigh, Doing, Holding;
  }

  function TriedWork(c: Config, now: Endpoints, k: Key, copy: Peer, base: Addr, next: nat, used: set<string>): Work
    requires c.Valid()
  {
    if next > HostHigh(base, c.pool.subnetMask) then Failing(copy)
    else if IpName(next) in used || AddressKey(k, next) in now then Scanning(copy, base, next + 1, used)
    else Recording(copy, next)
  }

  function TriedEndpoints(c: Config, now: Endpoints, k: Key, base: Addr, next: nat, used: set<string>): Endpoints
    requires c.Valid()
  {
    if next > HostHigh(base, c.pool.subnetMask) || IpName(next) in used || AddressKey(k, next) in now then now
    else WithEndpoint(now, k, next)
  }

  lemma TryEffect(c: Config, t: State, k: Key, copy: Peer, base: Addr, next: nat, used: set<string>)
    requires c.Valid()
    ensures var u := DoTry(c, t, k, copy, base, next, used, true);
      && k in u.work && u.work[k] == TriedWork(c, t.endpoints, k, copy, base, next, used)
      && u.endpoints == TriedEndpoints(c, t.endpoints, k, base, next, used)
  {
    TryOutcome(c, t, k, copy, base, next, used);
    hide DoTry, IpName, HostHigh;
    Effects(t, k, next, Failing(copy));
    Effects(t, k, next, Scanning(copy, base, next + 1, used));
    if next < TWO32 {
      Effects(t, k, next, Recording(copy, next));
    }
  }

  lemma Effects(t: State, k: Key, a: int, w: Work)
    ensures k in Doing(t, k, w).work && Doing(t, k, w).work[k] == w && Doing(t, k, w).endpoints == t.endpoints
    ensures 0 <= a < TWO32 ==> var u := Doing(Holding(t, k, a), k, w);
      k in u.work && u.work[k] == w && u.endpoints == WithEndpoint(t.endpoints, k, a)
  {
    hide IpName;
  }

  lemma OneMoreTry(c: Config, before: Endpoints, now: Endpoints, w: Work, k: Key, copy: Peer, base: Addr,
                   listed: seq<Listed>, next: int)
    requires c.Valid() && StillScanning(c, before, now, w, k, copy, base, listed, next)
    ensures
      var after := TriedEndpoints(c, now, k, base, next, ListedNames(listed));
      var v := TriedWork(c, now, k, copy, base, next, ListedNames(listed));
      || (next <= HostHigh(base, c.pool.subnetMask) &&
          StillScanning(c, before, after, v, k, copy, base, listed, next + 1))
      || HasClaimed(c, before, after, v, k, base, listed) || HasFailed(c, before, after, v, k, base, listed)
  {
    hide IpName, HostLow, HostHigh, ListedNames, WithEndpoint;
  }

  ghost predicate Stands(c: Config, before: Endpoints, now: Endpoints, w: Work, k: Key, copy: Peer, base: Addr,
                         listed: seq<Listed>, n: nat)
    requires c.Valid()
  {
    || (StillScanning(c, before, now, w, k, copy, base, listed, HostLow(base) + n)
        && (n > 0 ==> HostLow(base) + n - 1 <= HostHigh(base, c.pool.subnetMask)))
    || HasClaimed(c, before, now, w, k, base, listed) || HasFailed(c, before, now, w, k, base, listed)
  }

  lemma {:induction false} ScanStands(c: Config, s: State, k: Key, copy: Peer, base: Addr, listed: seq<Listed>, n: nat)
    requires c.Valid() && InFlight(s, k) && s.work[k] == Listing(copy, base) && OwnListed(listed, k.name) == None
    ensures var t := ListThenTry(c, s, k, listed, n);
      k in t.work && Stands(c, s.endpoints, t.endpoints, t.work[k], k, copy, base, listed, n)
  {
    hide OwnListed, IpName, HostLow, HostHigh, ListedNames, DoTry, Candidate, TriedWork, TriedEndpoints, WithEndpoint;
    if n == 0 {
      NoneBelow(c, s.endpoints, k, base, listed);
    } else {
      ScanStands(c, s, k, copy, base, listed, n - 1);
      var t := ListThenTry(c, s, k, listed, n - 1);
      if t.work[k].Scanning? {
        TryEffect(c, t, k, copy, base, HostLow(base) + n - 1, ListedNames(listed));
        OneMoreTry(c, s.endpoints, t.endpoints, t.work[k], k, copy, base, listed, HostLow(base) + n - 1);
      }
    }
  }

  lemma NoneBelow(c: Config, endpoints: Endpoints, k: Key, base: Addr, listed: seq<Listed>)
    requires c.Valid()
    ensures forall a: Addr | a < HostLow(base) :: !Candidate(c, endpoints, k, base, listed, a)
  {
    hide IpName, HostLow, HostHigh, ListedNames;
  }

  /** A peer's own endpoint is shown: no scan follows. */
  lemma {:induction false} ShownStays(c: Config, s: State, k: Key, listed: seq<Listed>, n: nat)
    requires c.Valid() && InFlight(s, k) && s.work[k].Listing? && OwnListed(listed, k.name).Some?
    ensures var t := ListThenTry(c, s, k, listed, n); t.endpoints == s.endpoints && k in t.work && t.work[k].Recording?
  {
    hide OwnListed, ListedNames, HostLow;
    if n > 0 {
      hide DoTry;
      ShownStays(c, s, k, listed, n - 1);
    }
  }

  /** A list leads its peer to a second endpoint exactly when it hides the first one and there is a host of
      the subnet that neither the list nor the store has. */
  lemma SecondEndpointIff(c: Config, s: State, k: Key, listed: seq<Listed>)
    requires c.Valid() && InFlight(s, k) && s.work[k].Listing? && OwnsAtMostOne(s.endpoints, k)
    ensures (exists n: nat :: !OwnsAtMostOne(ListThenTry(c, s, k, listed, n).endpoints, k))
       <==> Hides(s.endpoints, k, listed) && exists a: Addr :: Candidate(c, s.endpoints, k, s.work[k].base, listed, a)
  {
    hide ListThenTry, Hides, Candidate, OwnsAtMostOne;
    if n: nat :| !OwnsAtMostOne(ListThenTry(c, s, k, listed, n).endpoints, k) {
      SecondWasHidden(c, s, k, s.work[k].copy, s.work[k].base, listed, n);
    }
    if Hides(s.endpoints, k, listed) && exists a: Addr :: Candidate(c, s.endpoints, k, s.work[k].base, listed, a) {
      var n := HiddenGetsSecond(c, s, k, s.work[k].copy, s.work[k].base, listed);
    }
  }

  lemma SecondWasHidden(c: Config, s: State, k: Key, copy: Peer, base: Addr, listed: seq<Listed>, n: nat)
    requires c.Valid() && InFlight(s, k) && s.work[k] == Listing(copy, base) && OwnsAtMostOne(s.endpoints, k)
    requires !OwnsAtMostOne(ListThenTry(c, s, k, listed, n).endpoints, k)
    ensures Hides(s.endpoints, k, listed) && exists a: Addr :: Candidate(c, s.endpoints, k, base, listed, a)
  {
    hide OwnListed, HostLow, HostHigh, ListedNames, Candidate, OwnsAtMostOne, OwnsNone, ListThenTry, WithEndpoint;
    if OwnListed(listed, k.name) == None {
      ScanStands(c, s, k, copy, base, listed, n);
      var a: Addr :| Candidate(c, s.endpoints, k, base, listed, a)
        && ListThenTry(c, s, k, listed, n).endpoints == WithEndpoint(s.endpoints, k, a);
      FirstOne(s.endpoints, k, a);
    } else {
      ShownStays(c, s, k, listed, n);
    }
  }

  lemma HiddenGetsSecond(c: Config, s: State, k: Key, copy: Peer, base: Addr, listed: seq<Listed>) returns (n: nat)
    requires c.Valid() && InFlight(s, k) && s.work[k] == Listing(copy, base) && Hides(s.endpoints, k, listed)
    requires exists a: Addr :: Candidate(c, s.endpoints, k, base, listed, a)
    ensures !OwnsAtMostOne(ListThenTry(c, s, k, listed, n).endpoints, k)
  {
    hide OwnListed, HostLow, HostHigh, ListedNames, Candidate, OwnsAtMostOne, OwnsNone, ListThenTry, WithEndpoint;
    hide AddressKey;
    n := HostHigh(base, c.pool.subnetMask) + 2;
    ScanStands(c, s, k, copy, base, listed, n);
    var a: Addr :| Candidate(c, s.endpoints, k, base, listed, a)
      && ListThenTry(c, s, k, listed, n).endpoints == WithEndpoint(s.endpoints, k, a);
    CandidateIsFree(c, s.endpoints, k, base, listed, a);
    SecondOne(s.endpoints, k, a);
  }

  lemma CandidateIsFree(c: Config, endpoints: Endpoints, k: Key, base: Addr, listed: seq<Listed>, a: Addr)
    requires c.Valid() && Candidate(c, endpoints, k, base, listed, a)
    ensures AddressKey(k, a) !in endpoints
  {
    hide IpName, HostLow, HostHigh, ListedNames;
  }

  lemma FirstOne(endpoints: Endpoints, k: Key, a: Addr)
    ensures OwnsNone(endpoints, k) ==> OwnsAtMostOne(WithEndpoint(endpoints, k, a), k)
  {
    hide IpName;
  }

  lemma SecondOne(endpoints: Endpoints, k: Key, a: Addr)
    requires !OwnsNone(endpoints, k) && AddressKey(k, a) !in endpoints
    ensures !OwnsAtMostOne(WithEndpoint(endpoints, k, a), k)
  {
    hide IpName;
    var x :| x in endpoints && Owns(endpoints, k, x);
    var after := WithEndpoint(endpoints, k, a);
    assert Owns(after, k, x) && Owns(after, k, AddressKey(k, a)) && x != AddressKey(k, a);
  }
}
