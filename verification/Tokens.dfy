/** Enrollment tokens: a reconcile copies the token and the bound peers into the status and marks it
    expired. */
module Tokens {
  import opened Prelude

  const EXPIRED := "Expired"

  datatype Spec = Spec(token: string, boundPeers: seq<string>)

  datatype Status = Status(phase: string, isExpired: bool, token: string, boundPeers: seq<string>, usedCount: nat)

  const FRESH := Status("", false, "", [], 0)

  /** The answer to a status patch. */
  datatype Patch = Applied | Conflict | Refused

  datatype Env = Env(expire: Patch, setToken: Patch, bind: Patch)

  const ALL_APPLIED := Env(Applied, Applied, Applied)

  /** The Spec's peers that the set does not have, each as often as the Spec lists it. */
  function Missing(peers: seq<string>, have: set<string>): seq<string> {
    if peers == [] then []
    else
      var n := |peers| - 1;
      Missing(peers[..n], have) + if peers[n] in have then [] else [peers[n]]
  }

  function Members(peers: seq<string>): set<string> { set p | p in peers }

  lemma {:induction false} MissingMembers(peers: seq<string>, have: set<string>)
    ensures forall p :: p in Missing(peers, have) <==> p in peers && p !in have
  {
    if peers != [] {
      var n := |peers| - 1;
      MissingMembers(peers[..n], have);
      assert peers == peers[..n] + [peers[n]];
    }
  }

  // ---------------------------------------------------------------- one reconcile

  /** A merge patch sends the fields that differ from the copy read; the others stay as stored. */
  function Merge(stored: Status, read: Status, changed: Status): Status {
    Status(
      if changed.phase != read.phase then changed.phase else stored.phase,
      if changed.isExpired != read.isExpired then changed.isExpired else stored.isExpired,
      if changed.token != read.token then changed.token else stored.token,
      if changed.boundPeers != read.boundPeers then changed.boundPeers else stored.boundPeers,
      if changed.usedCount != read.usedCount then changed.usedCount else stored.usedCount)
  }

  function Expire(s: Status): Status { s.(phase := EXPIRED, isExpired := true) }

  function SetToken(spec: Spec, s: Status): Status { s.(token := spec.token) }

  function Bind(spec: Spec, s: Status): Status {
    var added := Missing(spec.boundPeers, Members(s.boundPeers));
    s.(boundPeers := s.boundPeers + added, usedCount := s.usedCount + |added|)
  }

  function BindStep(spec: Spec, env: Env, stored: Status, read: Status): Status {
    if spec.boundPeers != read.boundPeers && Bind(spec, read) != read && env.bind.Applied?
    then Merge(stored, read, Bind(spec, read)) else stored
  }

  function TokenStep(spec: Spec, env: Env, stored: Status, read: Status): Status {
    if read.token != "" || SetToken(spec, read) == read || env.setToken.Conflict? then BindStep(spec, env, stored, read)
    else if env.setToken.Applied? then Merge(stored, read, SetToken(spec, read))
    else stored
  }

  /** The stored status after a reconcile that read some status. */
  function Reconciled(spec: Spec, expired: bool, env: Env, stored: Status, read: Status): Status {
    if read.phase == EXPIRED then stored
    else if !expired || env.expire.Conflict? then TokenStep(spec, env, stored, read)
    else if env.expire.Applied? then Merge(stored, read, Expire(read))
    else stored
  }

  class Reconciler {
    var stored: Status

    constructor ()
      ensures stored == FRESH
    {
      stored := FRESH;
    }

    /** Patches nothing when nothing changed; a conflict counts as not done, without an error. */
    method UpdateStatus(read: Status, changed: Status, answer: Patch) returns (done: bool, failed: bool)
      modifies this
      ensures done <==> changed != read && answer.Applied?
      ensures failed <==> changed != read && answer.Refused?
      ensures stored == if done then Merge(old(stored), read, changed) else old(stored)
    {
      if changed == read {
        return false, false;
      }
      if !answer.Applied? {
        return false, answer.Refused?;
      }
      stored := Merge(stored, read, changed);
      return true, false;
    }

    method BindPeers(spec: Spec, read: Status) returns (changed: Status)
      ensures changed == Bind(spec, read)
    {
      var statusPeers := Members(read.boundPeers);
      changed := read;
      for i := 0 to |spec.boundPeers|
        invariant changed == read.(boundPeers := read.boundPeers + Missing(spec.boundPeers[..i], statusPeers),
                                   usedCount := read.usedCount + |Missing(spec.boundPeers[..i], statusPeers)|)
      {
        var peer := spec.boundPeers[i];
        if peer !in statusPeers {
          changed := changed.(boundPeers := changed.boundPeers + [peer], usedCount := changed.usedCount + 1);
        }
        assert spec.boundPeers[..i + 1][..i] == spec.boundPeers[..i];
      }
      assert spec.boundPeers[..|spec.boundPeers|] == spec.boundPeers;
    }

    method Reconcile(spec: Spec, expired: bool, env: Env, read: Status)
      modifies this
      ensures stored == Reconciled(spec, expired, env, old(stored), read)
    {
      hide Merge, Bind;
      if read.phase == EXPIRED {
        return;
      }
      var done, failed;
      if expired {
        done, failed := UpdateStatus(read, Expire(read), env.expire);
        if done || failed {
          return;
        }
      }
      if read.token == "" {
        done, failed := UpdateStatus(read, SetToken(spec, read), env.setToken);
        if done || failed {
          return;
        }
      }
      if spec.boundPeers != read.boundPeers {
        var changed := BindPeers(spec, read);
        done, failed := UpdateStatus(read, changed, env.bind);
      }
    }
  }

  // ---------------------------------------------------------------- settling

  function Next(spec: Spec, expired: bool, s: Status): Status { Reconciled(spec, expired, ALL_APPLIED, s, s) }

  function Bit(b: bool): nat { if b then 1 else 0 }

  /** The writes still to come. */
  function Outstanding(spec: Spec, s: Status): nat {
    if s.phase == EXPIRED then 0
    else 1 + Bit(s.token == "" && spec.token != "") + Bit(Missing(spec.boundPeers, Members(s.boundPeers)) != [])
  }

  lemma NothingMissingAfterBind(spec: Spec, s: Status)
    ensures Missing(spec.boundPeers, Members(Bind(spec, s).boundPeers)) == []
  {
    var after := Bind(spec, s).boundPeers;
    var left := Missing(spec.boundPeers, Members(after));
    assert left == [] || left[0] in left;
    MissingMembers(spec.boundPeers, Members(s.boundPeers));
    MissingMembers(spec.boundPeers, Members(after));
    assert forall p | p in spec.boundPeers :: p in after;
  }

  /** A reconcile that writes leaves strictly less to write. */
  lemma WriteMakesProgress(spec: Spec, expired: bool, s: Status)
    ensures Next(spec, expired, s) != s ==> Outstanding(spec, Next(spec, expired, s)) < Outstanding(spec, s)
  {
    hide Missing;
    NothingMissingAfterBind(spec, s);
    if Missing(spec.boundPeers, Members(s.boundPeers)) == [] {
      assert s.boundPeers + [] == s.boundPeers;
      assert Bind(spec, s) == s;
    }
  }

  /** The number of reconciles of a run that write, for a fixed Spec and whatever the clock says. */
  function Writes(spec: Spec, clock: seq<bool>, s: Status): nat {
    if clock == [] then 0
    else Bit(Next(spec, clock[0], s) != s) + Writes(spec, clock[1..], Next(spec, clock[0], s))
  }

  lemma {:induction false} WritesAreBounded(spec: Spec, clock: seq<bool>, s: Status)
    ensures Writes(spec, clock, s) <= Outstanding(spec, s) <= 3
  {
    hide Next, Outstanding;
    if clock != [] {
      WriteMakesProgress(spec, clock[0], s);
      WritesAreBounded(spec, clock[1..], Next(spec, clock[0], s));
    } else {
      OutstandingBound(spec, s);
    }
    OutstandingBound(spec, s);
  }

  lemma OutstandingBound(spec: Spec, s: Status)
    ensures Outstanding(spec, s) <= 3
  {
  }

  /** A reconcile has nothing to write exactly when the token is expired, or is not due and has all of the
      Spec's token and peers in its status. */
  lemma QuietIff(spec: Spec, expired: bool, s: Status)
    ensures Next(spec, expired, s) == s <==>
      || s.phase == EXPIRED
      || (!expired && (s.token != "" || spec.token == "") && forall p | p in spec.boundPeers :: p in s.boundPeers)
  {
    var added := Missing(spec.boundPeers, Members(s.boundPeers));
    MissingMembers(spec.boundPeers, Members(s.boundPeers));
    hide Missing;
    if added == [] {
      assert s.boundPeers + added == s.boundPeers;
    } else {
      assert added[0] in added;
      assert |s.boundPeers + added| > |s.boundPeers|;
    }
  }

  // ---------------------------------------------------------------- the end

  /** Expired, or the Spec's token and every peer it binds are in the status. */
  predicate Complete(spec: Spec, s: Status) {
    s.phase == EXPIRED || ((s.token != "" || spec.token == "") && forall p | p in spec.boundPeers :: p in s.boundPeers)
  }

  function After(spec: Spec, clock: seq<bool>, s: Status): Status {
    if clock == [] then s else After(spec, clock[1..], Next(spec, clock[0], s))
  }

  lemma StaysComplete(spec: Spec, expired: bool, s: Status)
    requires Complete(spec, s)
    ensures Complete(spec, Next(spec, expired, s))
  {
    QuietIff(spec, false, s);
    hide Missing;
  }

  lemma {:induction false} RemainsComplete(spec: Spec, clock: seq<bool>, s: Status)
    requires Complete(spec, s)
    ensures Complete(spec, After(spec, clock, s))
  {
    hide Next, Complete;
    if clock != [] {
      StaysComplete(spec, clock[0], s);
      RemainsComplete(spec, clock[1..], Next(spec, clock[0], s));
    }
  }

  lemma NothingLeft(spec: Spec, s: Status)
    requires Outstanding(spec, s) == 0
    ensures Complete(spec, s)
  {
  }

  lemma {:induction false} CompleteInTime(spec: Spec, clock: seq<bool>, s: Status)
    requires |clock| >= Outstanding(spec, s)
    ensures Complete(spec, After(spec, clock, s))
  {
    hide Next, Outstanding, Complete;
    if Outstanding(spec, s) == 0 {
      NothingLeft(spec, s);
      RemainsComplete(spec, clock, s);
    } else {
      var t := Next(spec, clock[0], s);
      if t == s {
        assert Complete(spec, s) by { QuietIsComplete(spec, clock[0], s); }
        RemainsComplete(spec, clock, s);
      } else {
        WriteMakesProgress(spec, clock[0], s);
        CompleteInTime(spec, clock[1..], t);
      }
    }
  }

  lemma QuietIsComplete(spec: Spec, expired: bool, s: Status)
    requires Next(spec, expired, s) == s
    ensures Complete(spec, s)
  {
    QuietIff(spec, expired, s);
    hide Next;
  }

  /** With a fixed Spec and no failures, from any status and whatever the clock says, three reconciles are
      enough: the token is expired, or its status has the Spec's token and every peer the Spec binds. */
  lemma SettlesInThree(spec: Spec, clock: seq<bool>, s: Status)
    requires |clock| >= 3
    ensures Complete(spec, After(spec, clock, s)) && Writes(spec, clock, s) <= 3
  {
    hide Next, Outstanding, Complete;
    WritesAreBounded(spec, clock, s);
    CompleteInTime(spec, clock, s);
  }
}
