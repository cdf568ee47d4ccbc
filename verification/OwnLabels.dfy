/** What reconciles leave alone: in every run the Spec and the labels of a peer that are not network labels are its
    owner's, whatever versions the reconciles start from. */
module OwnLabels {
  import opened Prelude
  import opened Ipv4
  import opened KeyNames
  import opened Ipam
  import opened Peers
  import opened ControlPlane
  import opened LabelRuns
  import Interleaved

  /** The owner's part of a peer is the same, and what the reconciler has added to it stays. */
  ghost predicate Respects(before: Peer, after: Peer) {
    && after.specNet == before.specNet && SameOwnLabels(after.labels, before.labels)
    && (before.finalizer ==> after.finalizer) && (before.hasKeys ==> after.hasKeys)
  }

  // ---------------------------------------------------------------- the patches

  lemma MergeRespects(stored: Peer, copy: Peer, to: Peer)
    requires to == copy.(labels := to.labels) && SameOwnLabels(to.labels, copy.labels)
    ensures Respects(stored, MergeMeta(stored, copy, to))
  {
    hide HasPrefix;
  }

  lemma WriteRespects(stored: Peer, from: Peer, to: Peer)
    requires KeepsLabels(Patching(from, to))
    ensures Respects(stored, MergeMeta(MergeStatus(stored, from, to), from, to))
    ensures from == stored ==> Respects(stored, to)
  {
    WriteKeepsLabels(stored, from, to);
    hide HasPrefix;
  }

  lemma StatusRespects(stored: Peer, from: Peer, to: Peer)
    ensures Respects(stored, MergeStatus(stored, from, to)) && Respects(stored, stored)
  {
    hide HasPrefix;
  }

  // ---------------------------------------------------------------- one event

  ghost predicate RespectsAt(s: State, t: State, k: Key)
    requires k in s.peers
  {
    k in t.peers && Respects(s.peers[k], t.peers[k])
  }

  lemma Stays(s: State, t: State, k: Key)
    requires k in s.peers && t.peers == s.peers
    ensures RespectsAt(s, t, k)
  {
    StatusRespects(s.peers[k], s.peers[k], s.peers[k]);
  }

  lemma Stored(s: State, k: Key, p: Peer, w: Work)
    requires k in s.peers && Respects(s.peers[k], p)
    ensures RespectsAt(s, Doing(Storing(s, k, p), k, w), k) && RespectsAt(s, Doing(s, k, w), k)
  {
    StatusRespects(s.peers[k], s.peers[k], s.peers[k]);
    hide Respects;
  }

  lemma PatchesRespect(s: State, k: Key, from: Peer, to: Peer, patch: Patch)
    requires k in s.peers && KeepsLabels(Patching(from, to))
    ensures RespectsAt(s, DoWrite(s, k, from, to, patch), k)
  {
    WriteRespects(s.peers[k], from, to);
    StatusRespects(s.peers[k], s.peers[k], s.peers[k]);
    hide Respects, RespectsAt, Doing, Storing, MergeMeta, MergeStatus;
    Stored(s, k, MergeMeta(MergeStatus(s.peers[k], from, to), from, to), Idle);
    Stored(s, k, s.peers[k], Patching(from, from.(phase := Pending)));
    if from == s.peers[k] {
      Stored(s, k, to, Idle);
    }
  }

  lemma LabelRespects(c: Config, s: State, k: Key, copy: Peer, base: Addr, patch: Patch)
    requires k in s.peers && copy.specNet.Some?
    ensures RespectsAt(s, DoLabel(c, s, k, copy, base, patch), k)
  {
    var to := Labelled(c.digest, copy);
    MergeRespects(s.peers[k], copy, to);
    hide Respects, RespectsAt, Doing, Storing, MergeMeta, Labelled, NetworkLabels, SameOwnLabels;
    Stored(s, k, MergeMeta(s.peers[k], copy, to), Idle);
    Stored(s, k, MergeMeta(s.peers[k], copy, to), Listing(copy, base));
    Stored(s, k, MergeMeta(s.peers[k], copy, to), Failing(copy));
  }

  lemma UnlabelRespects(s: State, k: Key, copy: Peer, patch: Patch)
    requires k in s.peers
    ensures RespectsAt(s, DoUnlabel(s, k, copy, patch), k)
  {
    var to := Unlabelled(copy);
    MergeRespects(s.peers[k], copy, to);
    hide Respects, RespectsAt, Doing, Storing, MergeMeta, Unlabelled, NetworkLabels, SameOwnLabels;
    Stored(s, k, MergeMeta(s.peers[k], copy, to), Clearing(to));
    Stored(s, k, MergeMeta(s.peers[k], copy, to), Clearing(copy));
    Stored(s, k, MergeMeta(s.peers[k], copy, to), Failing(copy));
  }

  lemma StatusesRespect(s: State, k: Key, copy: Peer, a: Addr, patch: Patch)
    requires k in s.peers
    ensures RespectsAt(s, DoRecord(s, k, copy, a, patch), k) && RespectsAt(s, DoClear(s, k, copy, patch), k)
  {
    StatusRespects(s.peers[k], copy, Joined(copy, a));
    StatusRespects(s.peers[k], copy, Cleared(copy));
    hide Respects, RespectsAt, Doing, Storing, MergeStatus, Joined, Cleared;
    Stored(s, k, MergeStatus(s.peers[k], copy, Joined(copy, a)), Idle);
    Stored(s, k, MergeStatus(s.peers[k], copy, Cleared(copy)), Idle);
  }

  predicate IsEdit(e: Event, k: Key) { e.Edit? && e.k == k }

  /** No event but an edit of the peer touches what is its owner's. */
  lemma StepRespects(c: Config, s: State, e: Event, k: Key)
    requires c.Valid() && Enabled(c, s, e) && k in s.peers && WorkKeepsLabels(s.work) && !IsEdit(e, k)
    ensures RespectsAt(s, Apply(c, s, e), k)
  {
    if !Interleaved.About(e, k) {
      Interleaved.OtherEvents(c, s, e, k);
      StatusRespects(s.peers[k], s.peers[k], s.peers[k]);
      hide Respects, Apply;
    } else if e.Begin? || e.List? || e.Try? || e.Release? || e.Abort? {
      ElsewhereOne(c, s, e);
      Stays(s, Apply(c, s, e), k);
      hide RespectsAt;
    } else {
      PatchStepRespects(c, s, e, k);
    }
  }

  lemma PatchStepRespects(c: Config, s: State, e: Event, k: Key)
    requires c.Valid() && Enabled(c, s, e) && k in s.peers && WorkKeepsLabels(s.work) && Interleaved.About(e, k)
    requires e.Create? || e.Write? || e.Label? || e.Record? || e.Unlabel? || e.Clear?
    ensures RespectsAt(s, Apply(c, s, e), k)
  {
    hide RespectsAt, DoWrite, DoLabel, DoRecord, DoUnlabel, DoClear;
    match e
    case Write(_, patch) => PatchesRespect(s, k, s.work[k].from, s.work[k].to, patch);
    case Label(_, patch) => LabelRespects(c, s, k, s.work[k].copy, s.work[k].base, patch);
    case Record(_, patch) => StatusesRespect(s, k, s.work[k].copy, s.work[k].claimed, patch);
    case Unlabel(_, patch) => UnlabelRespects(s, k, s.work[k].copy, patch);
    case Clear(_, patch) => StatusesRespect(s, k, s.work[k].copy, 0, patch);
    case _ =>
  }

  // ---------------------------------------------------------------- whole runs

  lemma RespectsThen(p: Peer, q: Peer, r: Peer)
    requires Respects(p, q) && Respects(q, r)
    ensures Respects(p, r)
  {
    hide HasPrefix;
  }

  /** Between two edits of a peer its Spec and its own labels stay as they are, keys and values, and its finalizer
      and keys stay once they are set; whatever is read, lost, refused or cut off. */
  lemma {:induction false} OwnersPartStays(c: Config, states: seq<State>, events: seq<Event>, i: nat, j: nat, k: Key)
    requires c.Valid() && IsRun(c, states, events) && i <= j < |states| && k in states[i].peers
    requires forall n | i <= n < j :: !IsEdit(events[n], k)
    ensures RespectsAt(states[i], states[j], k)
    decreases j
  {
    hide Apply, Enabled, Respects;
    if i == j {
      StatusRespects(states[i].peers[k], states[i].peers[k], states[i].peers[k]);
    } else {
      OwnersPartStays(c, states, events, i, j - 1, k);
      assert Next(c, states[j - 1], events[j - 1], states[j - 1 + 1]);
      RunKeepsWork(c, states, events, j - 1);
      StepRespects(c, states[j - 1], events[j - 1], k);
      RespectsThen(states[i].peers[k], states[j - 1].peers[k], states[j].peers[k]);
    }
  }
}
