/** A run of the control plane that ends with two network labels on one peer. */
module TwoLabels {
  import opened Prelude
  import opened Ipv4
  import opened KeyNames
  import opened Ipam
  import opened Peers
  import opened ControlPlane
  import opened LabelRuns
  import opened Runs
  import PeerReconciler

  /** A run that ends in a state. */
  ghost predicate RunTo(c: Config, states: seq<State>, events: seq<Event>, s: State)
    requires c.Valid()
  {
    IsPath(c, AllSteps(), states, events) && states[0] == EMPTY && states[|events|] == s
  }

  ghost function AllSteps(): Steps { iset x: (State, Event) | IsStep(x) }

  predicate IsStep(x: (State, Event)) { true }

  /** A run continues. */
  lemma GoOn(c: Config, states: seq<State>, events: seq<Event>, s: State, e: Event)
    returns (more: seq<State>, also: seq<Event>, t: State)
    requires c.Valid() && RunTo(c, states, events, s) && Enabled(c, s, e)
    ensures t == Apply(c, s, e) && RunTo(c, more, also, t) && more == states + [t] && also == events + [e]
  {
    hide Apply, Enabled, IsPath;
    t := Apply(c, s, e);
    PathLength(c, AllSteps(), states, events);
    Append(c, AllSteps(), states, events, e);
    more, also := states + [t], events + [e];
  }

  /** The two versions of the peer that its reconciles read, one after the other. */
  function Before(x: string): Peer { Waiting(Some(x)) }

  lemma TwoNetworks(c: Config, k: Key, x: string, y: string) returns (t: State, one: Addr, two: Addr)
    requires c.Valid() && c.pool.prefix < c.pool.subnetMask && x != y
    ensures Leads(c, GentleSteps(), EMPTY, t) && AtRest(t, k, Before(y))
    ensures one in Published(t, Key(k.ns, x)) && two in Published(t, Key(k.ns, y))
  {
    GentlePermit();
    Stay(c, GentleSteps(), EMPTY);
    FirstSubnet(c.pool);
    hide Leads, Permits, LowestFree, SubnetName, GentleSteps;
    one := c.pool.Start();
    var s := Won(c, GentleSteps(), EMPTY, EMPTY, Key(k.ns, x), [], one);
    two := SecondSubnet(c.pool);
    var s1 := Won(c, GentleSteps(), EMPTY, s, Key(k.ns, y), [SubnetName(one)], two);
    t := Born(c, GentleSteps(), EMPTY, s1, k, Some(y));
  }

  /** Began from some version, a join whose label patch is applied. */
  function LabelledFrom(digest: Digest, stored: Peer, copy: Peer): Peer
    requires copy.specNet.Some?
  {
    MergeMeta(stored, copy, Labelled(digest, copy))
  }

  /** A reconcile may start from this version and join. */
  predicate MayJoin(c: Config, s: State, k: Key, copy: Peer, base: Addr) {
    && k in s.past && copy in s.past[k] && Decide(copy) == Join && copy.specNet.Some?
    && base in Published(s, Key(k.ns, copy.specNet.value)) && Labelled(c.digest, copy) != copy
  }

  lemma StillMay(c: Config, s: State, t: State, k: Key, copy: Peer, base: Addr)
    requires MayJoin(c, s, k, copy, base) && k in t.past && s.past[k] <= t.past[k] && t.published == s.published
    ensures MayJoin(c, t, k, copy, base)
  {
    hide Labelled, Decide;
  }

  lemma LabelFrom(c: Config, states: seq<State>, events: seq<Event>, s: State, k: Key, p: Peer, copy: Peer, base: Addr)
    returns (more: seq<State>, also: seq<Event>, t: State)
    requires c.Valid() && RunTo(c, states, events, s) && AtRest(s, k, p) && MayJoin(c, s, k, copy, base)
    ensures RunTo(c, more, also, t) && also == events + [Begin(k, copy, Cidr(base)), Label(k, Applied)]
    ensures AtRest(t, k, LabelledFrom(c.digest, p, copy)) && k in t.past && s.past[k] <= t.past[k]
    ensures t.published == s.published
    ensures states <= more
  {
    hide RunTo, Labelled, SameOwnLabels, Decide, LabelledFrom, Published, InWork;
    assert copy.specNet.Some? && Labelled(c.digest, copy) != copy;
    hide AtRest, MayJoin;
    var states1, events1, s1 := JoinFrom(c, states, events, s, k, p, copy, base);
    more, also, t := LabelNext(c, states1, events1, s1, k, p, copy, base);
  }

  lemma JoinFrom(c: Config, states: seq<State>, events: seq<Event>, s: State, k: Key, p: Peer, copy: Peer, base: Addr)
    returns (more: seq<State>, also: seq<Event>, t: State)
    requires c.Valid() && RunTo(c, states, events, s) && AtRest(s, k, p) && MayJoin(c, s, k, copy, base)
    ensures RunTo(c, more, also, t) && also == events + [Begin(k, copy, Cidr(base))] && states <= more
    ensures InWork(t, k, p, Labelling(copy, base)) && t.past == s.past && k in s.past && t.published == s.published
  {
    hide RunTo, Enabled, Apply, Labelled, NetworkLabels, Decide, Doing, Storing, Published, SameOwnLabels;
    JoinIs(c, s, k, copy, base);
    hide InWork;
    more, also, t := GoOn(c, states, events, s, Begin(k, copy, Cidr(base)));
    BegunFacts(s, k, p, Labelling(copy, base));
  }

  lemma LabelNext(c: Config, states: seq<State>, events: seq<Event>, s: State, k: Key, p: Peer, copy: Peer, base: Addr)
    returns (more: seq<State>, also: seq<Event>, t: State)
    requires c.Valid() && RunTo(c, states, events, s) && InWork(s, k, p, Labelling(copy, base)) && k in s.past
    requires copy.specNet.Some? && Labelled(c.digest, copy) != copy
    ensures RunTo(c, more, also, t) && also == events + [Label(k, Applied)] && states <= more
    ensures AtRest(t, k, LabelledFrom(c.digest, p, copy)) && k in t.past && s.past[k] <= t.past[k]
    ensures t.published == s.published
  {
    hide RunTo, Enabled, Apply, Labelled, NetworkLabels, NetworkLabelKey, LabelledFrom, Doing, Storing, InWork, AtRest;
    LabelledIs(c, s, k, p, copy, base);
    more, also, t := GoOn(c, states, events, s, Label(k, Applied));
    StoredFacts(s, k, LabelledFrom(c.digest, p, copy));
  }

  lemma BegunFacts(s: State, k: Key, p: Peer, w: Work)
    requires AtRest(s, k, p)
    ensures var t := Doing(s, k, w); InWork(t, k, p, w) && k in t.past && t.past == s.past && t.published == s.published
  {
  }

  lemma StoredFacts(s: State, k: Key, q: Peer)
    requires k in s.past
    ensures var t := Doing(Storing(s, k, q), k, Idle);
      AtRest(t, k, q) && k in t.past && s.past[k] <= t.past[k] && t.published == s.published
  {
  }

  lemma LabelledIs(c: Config, s: State, k: Key, p: Peer, copy: Peer, base: Addr)
    requires c.Valid() && InWork(s, k, p, Labelling(copy, base)) && copy.specNet.Some?
    requires Labelled(c.digest, copy) != copy
    ensures Enabled(c, s, Label(k, Applied))
    ensures Apply(c, s, Label(k, Applied)) == Doing(Storing(s, k, LabelledFrom(c.digest, p, copy)), k, Idle)
  {
    Works(c, s, k, Labelling(copy, base), Applied);
    hide Enabled, Apply, Doing, Storing, MergeMeta, Labelled, NetworkLabels;
  }

  lemma JoinIs(c: Config, s: State, k: Key, copy: Peer, base: Addr)
    requires c.Valid() && InFlight(s, k) && s.work[k] == Idle && copy in s.past[k]
    requires Decide(copy) == Join && copy.specNet.Some? && base in Published(s, Key(k.ns, copy.specNet.value))
    ensures Enabled(c, s, Begin(k, copy, Cidr(base)))
    ensures Apply(c, s, Begin(k, copy, Cidr(base))) == Doing(s, k, Labelling(copy, base))
  {
    hide Doing, Decide, Published;
  }

  lemma BothLabels(digest: Digest, r0: Peer, r1: Peer)
    requires r0.specNet.Some? && r1 == r0.(specNet := r1.specNet) && r1.specNet.Some? && r0.labels == map[]
    requires NetworkLabelKey(digest, r0.specNet.value) != NetworkLabelKey(digest, r1.specNet.value)
    ensures var after := LabelledFrom(digest, LabelledFrom(digest, r1, r0), r1).labels;
      NetworkLabels(after) == {NetworkLabelKey(digest, r0.specNet.value), NetworkLabelKey(digest, r1.specNet.value)}
  {
    hide NetworkLabelKey, Labelled, MergeLabels, HasPrefix;
    LabelledValues(digest, r0);
    LabelledValues(digest, r1);
    var y, x := NetworkLabelKey(digest, r0.specNet.value), NetworkLabelKey(digest, r1.specNet.value);
    var first := MergeLabels(r1.labels, r0.labels, Labelled(digest, r0).labels);
    var after := MergeLabels(first, r1.labels, Labelled(digest, r1).labels);
    forall l | IsNetworkLabel(l) ensures l in after <==> l == x || l == y {
      MergedLabels(r1.labels, r0.labels, Labelled(digest, r0).labels, y, l);
      MergedLabels(first, r1.labels, Labelled(digest, r1).labels, x, l);
    }
  }

  /** In every pool with more than one subnet there is a run that ends with two network labels on one peer, and
      in which nothing goes wrong until the network of the waiting peer is changed: then one reconcile reads
      the version before the change and the next one the version after it. */
  lemma TwoLabelsReached(c: Config, k: Key, x: string, y: string)
    returns (states: seq<State>, events: seq<Event>, n: nat, one: Addr, two: Addr)
    requires c.Valid() && c.pool.prefix < c.pool.subnetMask
    requires NetworkLabelKey(c.digest, y) != NetworkLabelKey(c.digest, x)
    ensures IsRun(c, states, events) && InFlight(states[|events|], k)
    ensures NetworkLabels(states[|events|].peers[k].labels) ==
      {NetworkLabelKey(c.digest, y), NetworkLabelKey(c.digest, x)}
    ensures n <= |events| && forall i :: 0 <= i < n ==> Gentle(states[i], events[i])
    ensures events[n..] == LastFive(k, x, y, one, two)
  {
    Versions(c.digest, x, y);
    hide NetworkLabels, NetworkLabelKey, LabelledFrom, RunTo, Gentle, Before, LastFive, IsRun;
    var states0, events0, t;
    states0, events0, states, events, t, one, two := TwoLabelsPath(c, k, x, y);
    RunToIs(c, states, events, t);
    n := |events0|;
    assert events[n..] == LastFive(k, x, y, one, two);
    forall i | 0 <= i < n ensures Gentle(states[i], events[i]) {
      assert states[i] == states0[i] && events[i] == events0[i];
    }
  }

  function LastFive(k: Key, x: string, y: string, one: Addr, two: Addr): seq<Event> {
    [Edit(k, Some(x), map[]), Begin(k, Before(y), Cidr(two)), Label(k, Applied),
     Begin(k, Before(x), Cidr(one)), Label(k, Applied)]
  }

  lemma TwoLabelsPath(c: Config, k: Key, x: string, y: string)
    returns (states0: seq<State>, events0: seq<Event>, states: seq<State>, events: seq<Event>,
             t: State, one: Addr, two: Addr)
    requires c.Valid() && c.pool.prefix < c.pool.subnetMask && x != y
    ensures |states0| == |events0| + 1 && forall i :: 0 <= i < |events0| ==> Gentle(states0[i], events0[i])
    ensures RunTo(c, states, events, t) && states0 <= states && events == events0 + LastFive(k, x, y, one, two)
    ensures AtRest(t, k, LabelledFrom(c.digest, LabelledFrom(c.digest, Before(x), Before(y)), Before(x)))
  {
    var states1, events1, s1;
    hide Leads, NetworkLabels, NetworkLabelKey, Labelled, LabelledFrom, RunTo, Gentle, GentleSteps, Before, Decide;
    hide MayJoin;
    states0, events0, states1, events1, s1, one, two := ChangedBefore(c, k, x, y);
    states, events, t := LabelBoth(c, states1, events1, s1, k, Before(y), Before(x), two, one);
  }

  lemma ChangedBefore(c: Config, k: Key, x: string, y: string)
    returns (states0: seq<State>, events0: seq<Event>, states: seq<State>, events: seq<Event>,
             t: State, one: Addr, two: Addr)
    requires c.Valid() && c.pool.prefix < c.pool.subnetMask && x != y
    ensures |states0| == |events0| + 1 && forall i :: 0 <= i < |events0| ==> Gentle(states0[i], events0[i])
    ensures RunTo(c, states, events, t) && states0 <= states && events == events0 + [Edit(k, Some(x), map[])]
    ensures AtRest(t, k, Before(x)) && MayJoin(c, t, k, Before(y), two) && MayJoin(c, t, k, Before(x), one)
  {
    WaitsToJoin(c.digest, x);
    WaitsToJoin(c.digest, y);
    assert Before(x) == Before(y).(specNet := Some(x));
    hide Leads, Labelled, RunTo, Gentle, GentleSteps, Before, Decide, Published;
    var s: State;
    s, one, two := TwoNetworks(c, k, x, y);
    states0, events0 := GentleRun(c, s);
    states, events, t := ChangeNetwork(c, states0, events0, s, k, Before(y), x);
    SamePublished(s, t);
  }

  lemma WaitsToJoin(digest: Digest, x: string)
    ensures var p := Before(x);
      Decide(p) == Join && p.specNet == Some(x) && p.labels == map[] && Labelled(digest, p) != p
  {
    NoLabelYet(digest, Before(x));
    hide Labelled;
  }

  lemma Versions(digest: Digest, x: string, y: string)
    requires NetworkLabelKey(digest, y) != NetworkLabelKey(digest, x)
    ensures NetworkLabels(LabelledFrom(digest, LabelledFrom(digest, Before(x), Before(y)), Before(x)).labels)
         == {NetworkLabelKey(digest, y), NetworkLabelKey(digest, x)}
  {
    hide NetworkLabels, NetworkLabelKey, Labelled, LabelledFrom;
    BothLabels(digest, Before(y), Before(x));
  }

  lemma RunToIs(c: Config, states: seq<State>, events: seq<Event>, s: State)
    requires c.Valid() && RunTo(c, states, events, s)
    ensures IsRun(c, states, events) && |states| == |events| + 1 && states[|events|] == s
  {
    hide Next;
  }

  lemma LabelBoth(c: Config, states: seq<State>, events: seq<Event>, s: State, k: Key, r0: Peer, r1: Peer, two: Addr,
                  one: Addr)
    returns (more: seq<State>, also: seq<Event>, t: State)
    requires c.Valid() && RunTo(c, states, events, s) && AtRest(s, k, r1)
    requires MayJoin(c, s, k, r0, two) && MayJoin(c, s, k, r1, one)
    ensures RunTo(c, more, also, t) && states <= more
    ensures also == events + [Begin(k, r0, Cidr(two)), Label(k, Applied), Begin(k, r1, Cidr(one)), Label(k, Applied)]
    ensures AtRest(t, k, LabelledFrom(c.digest, LabelledFrom(c.digest, r1, r0), r1))
  {
    assert r0.specNet.Some? && r1.specNet.Some?;
    assert k in s.past;
    hide NetworkLabels, Labelled, LabelledFrom, RunTo, MayJoin, AtRest;
    var states1, events1, s1 := LabelFrom(c, states, events, s, k, r1, r0, two);
    StillMay(c, s, s1, k, r1, one);
    more, also, t := LabelFrom(c, states1, events1, s1, k, LabelledFrom(c.digest, r1, r0), r1, one);
    FourEvents(events, Begin(k, r0, Cidr(two)), Begin(k, r1, Cidr(one)), Label(k, Applied));
  }

  lemma FourEvents(events: seq<Event>, e: Event, f: Event, g: Event)
    ensures events + [e, g] + [f, g] == events + [e, g, f, g]
  {
  }

  lemma SamePublished(s: State, t: State)
    requires t.published == s.published
    ensures forall n :: Published(t, n) == Published(s, n)
  {
  }

  lemma GentleRun(c: Config, s: State) returns (states: seq<State>, events: seq<Event>)
    requires c.Valid() && Leads(c, GentleSteps(), EMPTY, s)
    ensures RunTo(c, states, events, s) && |states| == |events| + 1
    ensures forall i :: 0 <= i < |events| ==> Gentle(states[i], events[i])
  {
    hide Leads, Gentle, Next;
    states, events := PathIsRun(c, GentleSteps(), s);
    forall i | 0 <= i < |events| ensures Gentle(states[i], events[i]) {
      assert (states[i], events[i]) in GentleSteps();
    }
  }

  lemma ChangeNetwork(c: Config, states: seq<State>, events: seq<Event>, s: State, k: Key, p: Peer, x: string)
    returns (more: seq<State>, also: seq<Event>, t: State)
    requires c.Valid() && RunTo(c, states, events, s) && AtRest(s, k, p)
    ensures RunTo(c, more, also, t) && also == events + [Edit(k, Some(x), p.labels)] && more == states + [t]
    ensures AtRest(t, k, p.(specNet := Some(x))) && p in t.past[k] && t.published == s.published
  {
    EditIs(c, s, k, p, Some(x));
    hide RunTo, Enabled, Apply;
    more, also, t := GoOn(c, states, events, s, Edit(k, Some(x), p.labels));
  }
}
