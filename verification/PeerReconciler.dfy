/** One reconcile of a peer from start to end, as the handlers run it, and what repeated reconciles of
    a peer with a fixed spec converge to. */
module PeerReconciler {
  import opened Prelude
  import opened Ipv4
  import opened KeyNames
  import opened Peers
  import opened ControlPlane

  /** What the API server and the allocator answer during one reconcile. */
  datatype Env = Env(
    network: NetworkRead,        // the target network, when joining
    address: Option<Addr>,       // AllocateIP, when joining
    released: bool,              // ReleaseIP, when leaving
    spec: Patch,                 // the patch of labels, keys or finalizer
    status: Patch) {             // the patch of the status

    /** No API failure, and the target network (if any) is ready with a free address. */
    predicate Quiet(target: Option<string>) {
      && (target.Some? ==> network.Cidr? && address.Some?)
      && released && spec == Applied && status == Applied
    }
  }

  function Patched(p: Peer, to: Peer, patch: Patch): Peer {
    if patch == Applied then to else p
  }

  /** The stored peer after one reconcile. */
  function Reconciled(digest: Digest, p: Peer, env: Env): Peer {
    match Decide(p)
    case AddFinalizer => Patched(p, p.(finalizer := true), env.spec)
    case MakeKeys =>
      // a swallowed conflict goes on to the next phase without keys
      if env.spec == Conflict then Patched(p, p.(phase := Pending), env.status)
      else Patched(p, p.(hasKeys := true), env.spec)
    case Initialize => Patched(p, p.(phase := Pending), env.status)
    case ToPending => Patched(p, p.(phase := Pending), env.status)
    case GoIdle => Patched(p, p.(phase := Ready), env.status)
    case Leave => LeftNetwork(p, env)
    case Join => JoinedNetwork(digest, p, env)
    case _ => p
  }

  function LeftNetwork(p: Peer, env: Env): Peer {
    if p.address.Some? && !env.released then p
    else
      var bare := Unlabelled(p);
      if bare != p && env.spec == Refused then Patched(p, p.(phase := Failed), env.status)
      else
        var q := Patched(p, bare, env.spec);
        Patched(q, Cleared(q), env.status)
  }

  function JoinedNetwork(digest: Digest, p: Peer, env: Env): Peer
    requires p.specNet.Some?
  {
    match env.network
    case Missing => Patched(p, p.(phase := Failed), env.status)
    case NotReady => p
    case Cidr(_) =>
      var labelled := Labelled(digest, p);
      if labelled != p && env.spec == Applied then labelled
      else if (labelled != p && env.spec == Refused) || env.address == None then
        Patched(p, p.(phase := Failed), env.status)
      else Patched(p, Joined(p, env.address.value), env.status)
  }

  /** The handlers. `stored` is the object on the API server, `peer` the copy in memory. */
  class Reconciler {
    const digest: Digest
    var stored: Peer
    var peer: Peer

    constructor (digest: Digest, stored: Peer)
      ensures this.digest == digest && this.stored == stored && peer == stored
    {
      this.digest, this.stored, peer := digest, stored, stored;
    }

    /** Patch metadata; a written patch is copied back, a conflict is swallowed. */
    method UpdateSpec(to: Peer, patch: Patch) returns (changed: bool, ok: bool)
      requires peer == stored && to == peer.(labels := to.labels, hasKeys := to.hasKeys)
      modifies this
      ensures peer == stored == if changed then to else old(stored)
      ensures changed <==> to != old(peer) && patch == Applied
      ensures ok <==> to == old(peer) || patch != Refused
    {
      if to == peer {
        return false, true;
      }
      if patch != Applied {
        return false, patch == Conflict;
      }
      assert MergeLabels(stored.labels, stored.labels, to.labels) == to.labels by { FreshMerge(stored, to); }
      stored := MergeMeta(stored, peer, to);
      peer := to;
      return true, true;
    }

    method UpdateStatus(to: Peer, patch: Patch) returns (ok: bool)
      requires peer == stored && to == peer.(phase := to.phase, activeNet := to.activeNet, address := to.address)
      modifies this
      ensures peer == stored == Patched(old(stored), to, patch)
      ensures ok <==> to == old(peer) || patch != Refused
    {
      if to == peer {
        return true;
      }
      if patch != Applied {
        return patch == Conflict;
      }
      stored := MergeStatus(stored, peer, to);
      peer := to;
      return true;
    }

    method LeaveNetwork(env: Env)
      requires peer == stored
      modifies this
      ensures stored == LeftNetwork(old(stored), env)
    {
      if peer.address.Some? && !env.released {
        return;
      }
      var _, ok := UpdateSpec(Unlabelled(peer), env.spec);
      if !ok {
        var _ := UpdateStatus(peer.(phase := Failed), env.status);
        return;
      }
      var _ := UpdateStatus(Cleared(peer), env.status);
    }

    method JoinNetwork(env: Env)
      requires peer == stored && peer.specNet.Some?
      modifies this
      ensures old(stored).activeNet == old(stored).specNet ==> stored == old(stored)
      ensures old(stored).activeNet != old(stored).specNet ==> stored == JoinedNetwork(digest, old(stored), env)
    {
      if peer.activeNet == peer.specNet {
        return;
      }
      match env.network {
        case Missing =>
          var _ := UpdateStatus(peer.(phase := Failed), env.status);
        case NotReady =>
        case Cidr(_) =>
          var changed, ok := UpdateSpec(Labelled(digest, peer), env.spec);
          if changed {
            return;
          }
          if !ok || env.address == None {
            var _ := UpdateStatus(peer.(phase := Failed), env.status);
            return;
          }
          var _ := UpdateStatus(Joined(peer, env.address.value), env.status);
      }
    }

    method HandleInitialization(env: Env)
      requires peer == stored && peer.finalizer && peer.phase in {Unset, Unknown}
      modifies this
      ensures stored == Reconciled(digest, old(stored), env)
    {
      var changed, ok := UpdateSpec(peer.(hasKeys := true), env.spec);
      if changed || !ok {
        return;
      }
      var _ := UpdateStatus(peer.(phase := Pending), env.status);
    }

    method HandlePending(env: Env)
      requires peer == stored && peer.finalizer && peer.phase == Pending
      modifies this
      ensures stored == Reconciled(digest, old(stored), env)
    {
      hide LeftNetwork, JoinedNetwork;
      if peer.specNet == None && peer.activeNet == None {
        var _ := UpdateStatus(peer.(phase := Ready), env.status);
      } else if peer.specNet == None {
        LeaveNetwork(env);
      } else if peer.activeNet.Some? && peer.activeNet != peer.specNet {
        LeaveNetwork(env);
      } else {
        JoinNetwork(env);
      }
    }

    /** The phase switch. */
    method Reconcile(env: Env)
      modifies this
      ensures stored == Reconciled(digest, old(stored), env)
    {
      peer := stored;
      if !peer.finalizer {
        if env.spec == Applied {
          peer := peer.(finalizer := true);
          stored := peer;
        }
        return;
      }
      match peer.phase {
        case Pending => HandlePending(env);
        case Ready =>
          if peer.specNet != peer.activeNet {
            var _ := UpdateStatus(peer.(phase := Pending), env.status);
          }
        case Failed =>
          var _ := UpdateStatus(peer.(phase := Pending), env.status);
        case _ => HandleInitialization(env);
      }
    }
  }

  /** The network labels of the peer are to go, and the patch that takes them away fails. */
  predicate LeaveFails(p: Peer, env: Env) {
    && p.activeNet.Some? && p.activeNet != p.specNet && (p.address == None || env.released)
    && NetworkLabels(p.labels) != {} && env.spec == Refused
  }

  /** There is no such network; or it is ready, and the patch that sets its label fails or, with nothing left to set
      or a conflict about it, no address is free. */
  predicate JoinFails(digest: Digest, p: Peer, env: Env) {
    && p.specNet.Some? && p.activeNet == None
    && (|| env.network == Missing
        || (env.network.Cidr? && env.spec == Refused && !HasLabel(digest, p))
        || (env.network.Cidr? && env.address == None && (env.spec != Applied || HasLabel(digest, p))))
  }

  /** Exactly when a reconcile marks a peer as failed. */
  lemma FailsIff(digest: Digest, p: Peer, env: Env)
    requires p.phase != Failed
    ensures Reconciled(digest, p, env).phase == Failed <==>
      && p.finalizer && p.phase == Pending && env.status == Applied
      && (LeaveFails(p, env) || JoinFails(digest, p, env))
  {
    hide Labelled, Unlabelled, LeftNetwork, JoinedNetwork, LeaveFails, JoinFails;
    match Decide(p)
    case Leave => LeaveFailsIff(digest, p, env);
    case Join => JoinFailsIff(digest, p, env);
    case _ =>
      if p.finalizer && p.phase == Pending {
        NeitherFails(digest, p, env);
      }
  }

  lemma NeitherFails(digest: Digest, p: Peer, env: Env)
    requires !Decide(p).Leave? && !Decide(p).Join? && p.finalizer && p.phase == Pending
    ensures !LeaveFails(p, env) && !JoinFails(digest, p, env)
  {
    hide HasLabel, NetworkLabels;
  }

  lemma LeaveFailsIff(digest: Digest, p: Peer, env: Env)
    requires Decide(p).Leave?
    ensures LeftNetwork(p, env).phase == Failed <==> env.status == Applied && LeaveFails(p, env)
    ensures !JoinFails(digest, p, env)
  {
    UnlabelledIff(p);
    hide Unlabelled, NetworkLabels, HasLabel, SameOwnLabels;
  }

  lemma JoinFailsIff(digest: Digest, p: Peer, env: Env)
    requires Decide(p).Join?
    ensures JoinedNetwork(digest, p, env).phase == Failed <==> env.status == Applied && JoinFails(digest, p, env)
    ensures !LeaveFails(p, env)
  {
    hide Labelled, NetworkLabels, NetworkLabelKey;
    match env.network
    case Cidr(_) =>
      var labelled := Labelled(digest, p);
      var q := JoinedNetwork(digest, p, env);
      hide JoinedNetwork;
      if labelled != p && env.spec == Applied {
        assert q.phase == Pending;
      } else if (labelled != p && env.spec == Refused) || env.address == None {
        assert q.phase == Failed <==> env.status == Applied;
      } else {
        assert q.phase != Failed;
      }
    case _ =>
  }

  lemma UnlabelledIff(p: Peer)
    ensures Unlabelled(p) == p <==> NetworkLabels(p.labels) == {}
  {
    hide HasPrefix;
    if NetworkLabels(p.labels) == {} {
      forall k | k in p.labels ensures !HasPrefix(k, NETWORK_LABEL_PREFIX) { assert k !in NetworkLabels(p.labels); }
      assert WithoutNetworkLabels(p.labels) == p.labels;
    }
  }

  // ---------------------------------------------------------------- convergence

  predicate Settled(p: Peer) { p.phase == Ready && p.activeNet == p.specNet }

  /** Already in the target network, but not marked ready: joinNetwork returns early for such a peer
      and nothing else moves it on. */
  predicate Stuck(p: Peer) { p.specNet.Some? && p.activeNet == p.specNet && p.phase != Ready }

  /** The peer after n reconciles, the i-th of which is answered by envs(i). */
  function Rounds(digest: Digest, p: Peer, envs: nat -> Env, n: nat): Peer {
    if n == 0 then p else Reconciled(digest, Rounds(digest, p, envs, n - 1), envs(n - 1))
  }

  const MAX_ROUNDS := 7

  /** Reconciles left until a peer that is not stuck settles. */
  function RoundsLeft(digest: Digest, p: Peer): nat {
    if Settled(p) then 0
    else
      (if p.finalizer then 0 else 1) +
      match p.phase
      case Pending => PendingRounds(digest, p)
      case Ready => 1 + PendingRounds(digest, p)
      case Failed => 1 + PendingRounds(digest, p)
      case _ => (if p.hasKeys then 1 else 2) + PendingRounds(digest, p)
  }

  function PendingRounds(digest: Digest, p: Peer): nat {
    if p.specNet == None then 1
    else if p.activeNet != None then 4
    else if HasLabel(digest, p) then 1 else 2
  }

  predicate HasLabel(digest: Digest, p: Peer)
    requires p.specNet.Some?
  {
    Labelled(digest, p) == p
  }

  /** Every quiet reconcile of a peer that is neither settled nor stuck uses up one round, and leaves
      it not stuck. */
  lemma OneRound(digest: Digest, p: Peer, env: Env)
    requires env.Quiet(p.specNet) && !Settled(p) && !Stuck(p)
    ensures var q := Reconciled(digest, p, env);
      !Stuck(q) && q.specNet == p.specNet && RoundsLeft(digest, q) < RoundsLeft(digest, p)
  {
    hide Labelled, Unlabelled, HasLabel, RoundsLeft, LeftNetwork, JoinedNetwork;
    match Decide(p)
    case AddFinalizer => PhaseRound(digest, p, p.(finalizer := true));
    case MakeKeys => PhaseRound(digest, p, p.(hasKeys := true));
    case Initialize => PhaseRound(digest, p, p.(phase := Pending));
    case ToPending => PhaseRound(digest, p, p.(phase := Pending));
    case GoIdle => SettledRound(digest, p, p.(phase := Ready));
    case Leave =>
      QuietLeave(p, env);
      LeaveRound(digest, p);
    case Join =>
      QuietJoin(digest, p, env);
      JoinRound(digest, p, env.address.value);
    case _ =>
  }

  lemma QuietLeave(p: Peer, env: Env)
    requires env.Quiet(p.specNet)
    ensures LeftNetwork(p, env) == Cleared(Unlabelled(p))
  {
    hide Unlabelled, Cleared;
  }

  lemma QuietJoin(digest: Digest, p: Peer, env: Env)
    requires env.Quiet(p.specNet) && p.specNet.Some?
    ensures JoinedNetwork(digest, p, env) ==
      if HasLabel(digest, p) then Joined(p, env.address.value) else Labelled(digest, p)
  {
    hide Labelled, Joined;
  }

  lemma SettledRound(digest: Digest, p: Peer, q: Peer)
    requires !Settled(p) && Settled(q)
    ensures RoundsLeft(digest, q) < RoundsLeft(digest, p)
  {
    hide HasLabel;
  }

  /** The steps on the way to Pending. */
  lemma PhaseRound(digest: Digest, p: Peer, q: Peer)
    requires !Settled(p)
    requires
      || (q == p.(finalizer := true) && !p.finalizer)
      || (q == p.(hasKeys := true) && !p.hasKeys && p.phase in {Unset, Unknown})
      || (q == p.(phase := Pending) && (p.phase in {Ready, Failed} || (p.phase in {Unset, Unknown} && p.hasKeys)))
    ensures RoundsLeft(digest, q) < RoundsLeft(digest, p)
  {
    hide HasLabel;
    SameLabelling(digest, p, q);
  }

  lemma SameLabelling(digest: Digest, p: Peer, q: Peer)
    requires q.specNet == p.specNet && q.labels == p.labels
    ensures p.specNet.Some? ==> (HasLabel(digest, p) <==> HasLabel(digest, q))
  {
    hide NetworkLabels, NetworkLabelKey;
  }

  /** A leave clears everything; if a join is to follow, its label is not set. */
  lemma LeaveRound(digest: Digest, p: Peer)
    requires p.finalizer && p.phase == Pending && p.activeNet != None && p.activeNet != p.specNet
    ensures var q := Cleared(Unlabelled(p)); q.specNet == p.specNet && RoundsLeft(digest, q) < RoundsLeft(digest, p)
  {
    hide Unlabelled, HasLabel;
    var q := Cleared(Unlabelled(p));
    if q.specNet.Some? {
      BareNotLabelled(digest, q);
    }
  }

  lemma BareNotLabelled(digest: Digest, q: Peer)
    requires q.specNet.Some? && NetworkLabels(q.labels) == {}
    ensures !HasLabel(digest, q)
  {
    hide Labelled, NetworkLabelKey;
    assert NetworkLabels(Labelled(digest, q).labels) != NetworkLabels(q.labels);
  }

  /** A join sets the label first, and with the label set it finishes. */
  lemma JoinRound(digest: Digest, p: Peer, a: Addr)
    requires p.finalizer && p.phase == Pending && p.specNet.Some? && p.activeNet == None
    ensures var q := Labelled(digest, p);
      q.specNet == p.specNet && q.activeNet == None &&
      (!HasLabel(digest, p) ==> RoundsLeft(digest, q) < RoundsLeft(digest, p))
    ensures Settled(Joined(p, a)) && RoundsLeft(digest, Joined(p, a)) < RoundsLeft(digest, p)
  {
    hide Labelled;
    LabelledTwice(digest, p);
  }

  lemma LabelledTwice(digest: Digest, p: Peer)
    requires p.specNet.Some?
    ensures Labelled(digest, Labelled(digest, p)) == Labelled(digest, p)
  {
    hide NetworkLabelKey, HasPrefix;
    SetLabelTwice(p.labels, NetworkLabelKey(digest, p.specNet.value));
  }

  lemma SetLabelTwice(labels: Labels, key: string)
    requires HasPrefix(key, NETWORK_LABEL_PREFIX)
    ensures var once := WithoutNetworkLabels(labels)[key := "true"];
      WithoutNetworkLabels(once)[key := "true"] == once
  {
    hide HasPrefix;
  }

  lemma SettledStays(digest: Digest, p: Peer, env: Env)
    requires env.Quiet(p.specNet)
    ensures Settled(p) ==> Settled(Reconciled(digest, p, env)) && Reconciled(digest, p, env).specNet == p.specNet
    ensures Stuck(p) ==> Stuck(Reconciled(digest, p, env)) && Reconciled(digest, p, env).specNet == p.specNet
  {
    hide Labelled, Unlabelled;
  }

  lemma RoundsBound(digest: Digest, p: Peer)
    ensures RoundsLeft(digest, p) <= MAX_ROUNDS
  {
    hide HasLabel;
  }

  lemma {:induction false} SettlesInTime(digest: Digest, p: Peer, envs: nat -> Env, n: nat)
    requires (forall i: nat :: envs(i).Quiet(p.specNet)) && !Stuck(p)
    ensures var q := Rounds(digest, p, envs, n);
      !Stuck(q) && q.specNet == p.specNet && (Settled(q) || RoundsLeft(digest, q) + n <= RoundsLeft(digest, p))
  {
    hide Reconciled, RoundsLeft;
    if n > 0 {
      SettlesInTime(digest, p, envs, n - 1);
      var q := Rounds(digest, p, envs, n - 1);
      if Settled(q) {
        SettledStays(digest, q, envs(n - 1));
      } else {
        OneRound(digest, q, envs(n - 1));
      }
    }
  }

  lemma {:induction false} StuckForever(digest: Digest, p: Peer, envs: nat -> Env, n: nat)
    requires (forall i: nat :: envs(i).Quiet(p.specNet)) && Stuck(p)
    ensures Stuck(Rounds(digest, p, envs, n)) && Rounds(digest, p, envs, n).specNet == p.specNet
  {
    hide Reconciled, Stuck;
    if n > 0 {
      StuckForever(digest, p, envs, n - 1);
      SettledStays(digest, Rounds(digest, p, envs, n - 1), envs(n - 1));
    }
  }

  /** With a fixed spec, no API failures and a ready target network, a peer settles (Ready, in the
      network its spec names) within seven reconciles and stays so, exactly when it does not start
      out in its target network without being Ready. */
  lemma ConvergesUnlessStuck(digest: Digest, p: Peer, envs: nat -> Env)
    requires forall i: nat :: envs(i).Quiet(p.specNet)
    ensures !Stuck(p) <==> forall n: nat | n >= MAX_ROUNDS :: Settled(Rounds(digest, p, envs, n))
    ensures Stuck(p) <==> forall n: nat :: !Settled(Rounds(digest, p, envs, n))
  {
    hide RoundsLeft, Reconciled;
    RoundsBound(digest, p);
    var last: nat := MAX_ROUNDS;
    if Stuck(p) {
      forall n: nat ensures !Settled(Rounds(digest, p, envs, n)) {
        StuckForever(digest, p, envs, n);
      }
      assert !Settled(Rounds(digest, p, envs, last));
    } else {
      forall n: nat | n >= MAX_ROUNDS ensures Settled(Rounds(digest, p, envs, n)) {
        SettlesInTime(digest, p, envs, n);
        if !Settled(Rounds(digest, p, envs, n)) {
          NotLate(digest, Rounds(digest, p, envs, n));
        }
      }
      assert Settled(Rounds(digest, p, envs, last));
    }
  }

  lemma NotLate(digest: Digest, q: Peer)
    requires RoundsLeft(digest, q) == 0
    ensures Settled(q)
  {
    hide HasLabel;
  }
}
