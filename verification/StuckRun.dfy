/** A peer that gets stuck in a run in which nothing goes wrong, and stays so in every continuation. */
module StuckRun {
  import opened Prelude
  import opened Ipv4
  import opened KeyNames
  import opened Ipam
  import opened Peers
  import opened ControlPlane
  import opened Runs
  import opened OwnershipExact
  import PeerReconciler
  import Interleaved

  /** However things go on, without an edit of the peer and without a failure of its calls, it does not settle. */
  ghost predicate NeverSettles(c: Config, s: State, k: Key)
    requires c.Valid()
  {
    forall states, events | IsContinuation(c, s, k, states, events) :: !SettledAt(states[|events|], k)
  }

  ghost predicate IsContinuation(c: Config, s: State, k: Key, states: seq<State>, events: seq<Event>)
    requires c.Valid()
  {
    Interleaved.IsStretch(c, states, events) && states[0] == s && Interleaved.Alone(c, states, events, k, true)
  }

  predicate SettledAt(s: State, k: Key) {
    InFlight(s, k) && s.work[k] == Idle && PeerReconciler.Settled(s.peers[k])
  }

  lemma StuckStays(c: Config, s: State, k: Key)
    requires c.Valid() && InFlight(s, k) && s.work[k] == Idle && PeerReconciler.Stuck(s.peers[k])
    ensures NeverSettles(c, s, k)
  {
    forall states, events | IsContinuation(c, s, k, states, events) ensures !SettledAt(states[|events|], k) {
      hide Interleaved.Alone, Next;
      Interleaved.SettlesInEveryInterleaving(c, states, events, k);
    }
  }

  /** The peer joins, its network is changed, one reconcile takes it to Pending, and its network is changed back:
      it ends in its target network without being Ready, and never settles again. */
  lemma StuckReached(c: Config, x: Cast, other: string) returns (states: seq<State>, events: seq<Event>)
    requires c.Valid() && x.Valid() && other != x.net
    ensures IsRun(c, states, events) && forall i | 0 <= i < |events| :: Gentle(states[i], events[i])
    ensures var t := states[|events|]; InFlight(t, x.p) && PeerReconciler.Stuck(t.peers[x.p]) && NeverSettles(c, t, x.p)
  {
    GentlePermit();
    MemberIsIn(c, x);
    MemberSpec(c, x);
    hide Leads, Permits, Gentle, Member, IpName, HostLow, HostHigh, WithEndpoint, First, Gone, Unlabelled, NeverSettles;
    var s := OneMember(c, x, GentleSteps());
    hide Published, GentleSteps;
    var t := ChangedAndBack(c, GentleSteps(), s, x.p, Member(c, x), x.net, other);
    StuckStays(c, t, x.p);
    states, events := GentleRun(c, t);
  }

  lemma GentleRun(c: Config, t: State) returns (states: seq<State>, events: seq<Event>)
    requires c.Valid() && Leads(c, GentleSteps(), EMPTY, t)
    ensures IsRun(c, states, events) && states[|events|] == t
    ensures forall i | 0 <= i < |events| :: Gentle(states[i], events[i])
  {
    hide Leads, Gentle, Next;
    states, events := PathIsRun(c, GentleSteps(), t);
    assert forall i | 0 <= i < |events| :: (states[i], events[i]) in GentleSteps();
  }

  lemma ChangedAndBack(c: Config, allowed: Steps, s: State, k: Key, p: Peer, net: string, other: string)
    returns (t: State)
    requires c.Valid() && Permits(allowed) && Leads(c, allowed, EMPTY, s) && AtRest(s, k, p) && other != net
    requires p.finalizer && p.phase == Ready && p.specNet == p.activeNet == Some(net)
    ensures Leads(c, allowed, EMPTY, t) && AtRest(t, k, p.(phase := Pending))
  {
    hide Leads, Permits, Became;
    var q := p.(specNet := Some(other));
    var s1 := EditStep(c, allowed, EMPTY, s, k, p, Some(other));
    hide AtRest;
    var s2 := PatchRound(c, allowed, EMPTY, s1, k, q, q.(phase := Pending), Missing);
    t := EditStep(c, allowed, EMPTY, s2, k, q.(phase := Pending), Some(net));
  }

  lemma MemberSpec(c: Config, x: Cast)
    requires c.Valid() && x.Valid()
    ensures Member(c, x).specNet == Some(x.net)
  {
  }
}
