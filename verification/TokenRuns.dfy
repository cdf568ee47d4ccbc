/** Runs of token reconciles and enrollments from a fresh token, with Spec edits and old copies in between: what
    the count of uses says, and exactly when it goes down. */
module TokenRuns {
  import opened Prelude
  import opened Tokens

  /** A reconcile, for which the Spec may have changed and the copy read is any status stored so far; or an
      enrollment, which adds a use with an update that needs the current version. */
  datatype Step = Reconcile(spec: Spec, expired: bool, env: Env, readAt: nat) | Enroll

  function Enrolled(s: Status): Status { s.(usedCount := s.usedCount + 1) }

  predicate Follows(statuses: seq<Status>, step: Step, i: nat)
    requires i + 1 < |statuses|
  {
    match step
    case Enroll => statuses[i + 1] == Enrolled(statuses[i])
    case Reconcile(spec, expired, env, r) =>
      r <= i && statuses[i + 1] == Reconciled(spec, expired, env, statuses[i], statuses[r])
  }

  predicate IsRun(statuses: seq<Status>, steps: seq<Step>) {
    && |statuses| == |steps| + 1 && statuses[0] == FRESH
    && forall i :: 0 <= i < |steps| ==> Follows(statuses, steps[i], i)
  }

  // ---------------------------------------------------------------- one reconcile

  /** The reconcile gets as far as the patch of the bound peers, and it is applied. */
  predicate Binds(spec: Spec, expired: bool, env: Env, read: Status) {
    && read.phase != EXPIRED && (!expired || env.expire.Conflict?)
    && (read.token != "" || spec.token == "" || env.setToken.Conflict?)
    && Missing(spec.boundPeers, Members(read.boundPeers)) != [] && env.bind.Applied?
  }

  /** A bind writes the copy's list and count with what the Spec adds, over whatever is stored; nothing else
      touches them. */
  lemma BoundAfter(spec: Spec, expired: bool, env: Env, stored: Status, read: Status)
    ensures var after := Reconciled(spec, expired, env, stored, read);
      if Binds(spec, expired, env, read) then
        var added := Missing(spec.boundPeers, Members(read.boundPeers));
        after.boundPeers == read.boundPeers + added && after.usedCount == read.usedCount + |added|
      else after.boundPeers == stored.boundPeers && after.usedCount == stored.usedCount
  {
    var added := Missing(spec.boundPeers, Members(read.boundPeers));
    MissingMembers(spec.boundPeers, Members(read.boundPeers));
    hide Missing;
    if added == [] {
      assert read.boundPeers + added == read.boundPeers;
    } else {
      assert added[0] in added && added[0] in spec.boundPeers && added[0] !in read.boundPeers;
      assert |read.boundPeers + added| > |read.boundPeers|;
    }
  }

  lemma ExpiredStays(spec: Spec, expired: bool, env: Env, stored: Status, read: Status)
    ensures stored.phase == EXPIRED ==> Reconciled(spec, expired, env, stored, read).phase == EXPIRED
  {
  }

  /** Expired is for good, however stale the copies read. */
  lemma {:induction false} ExpiredIsAbsorbing(statuses: seq<Status>, steps: seq<Step>, i: nat, j: nat)
    requires IsRun(statuses, steps) && i <= j < |statuses| && statuses[i].phase == EXPIRED
    ensures statuses[j].phase == EXPIRED
    decreases j
  {
    hide Reconciled;
    if i < j {
      ExpiredIsAbsorbing(statuses, steps, i, j - 1);
      assert Follows(statuses, steps[j - 1], j - 1);
      if steps[j - 1].Reconcile? {
        var Reconcile(spec, expired, env, r) := steps[j - 1];
        ExpiredStays(spec, expired, env, statuses[j - 1], statuses[r]);
      }
    }
  }

  /** The reconciles up to n set that token, and one of them finds the clock past the expiry. */
  ghost predicate TokenSeen(steps: seq<Step>, n: nat, token: string)
    requires n <= |steps|
  {
    exists k :: 0 <= k < n && steps[k].Reconcile? && steps[k].spec.token == token
  }

  ghost predicate ExpirySeen(steps: seq<Step>, n: nat)
    requires n <= |steps|
  {
    exists k :: 0 <= k < n && steps[k].Reconcile? && steps[k].expired
  }

  lemma TokenStepKeeps(spec: Spec, expired: bool, env: Env, stored: Status, read: Status)
    requires read.isExpired <==> read.phase == "Expired"
    ensures var after := Reconciled(spec, expired, env, stored, read);
      && (after.token == stored.token || (after.token == spec.token && after.token != ""))
      && ((after.phase == stored.phase && after.isExpired == stored.isExpired)
          || (expired && after.phase == "Expired" && after.isExpired))
  {
    hide Missing;
  }

  /** In every run the flag says expired exactly when the phase does, which otherwise is empty; a token expires only
      after the clock has passed its expiry; and a token in the status is one the Spec had. */
  lemma {:induction false} StatusFromSpec(statuses: seq<Status>, steps: seq<Step>, n: nat)
    requires IsRun(statuses, steps) && n <= |steps|
    ensures statuses[n].isExpired <==> statuses[n].phase == "Expired"
    ensures statuses[n].phase == "" || (statuses[n].phase == "Expired" && ExpirySeen(steps, n))
    ensures statuses[n].token == "" || TokenSeen(steps, n, statuses[n].token)
  {
    hide Reconciled;
    if n > 0 {
      StatusFromSpec(statuses, steps, n - 1);
      assert Follows(statuses, steps[n - 1], n - 1);
      if steps[n - 1].Reconcile? {
        var Reconcile(spec, expired, env, r) := steps[n - 1];
        StatusFromSpec(statuses, steps, r);
        TokenStepKeeps(spec, expired, env, statuses[n - 1], statuses[r]);
      }
    }
  }

  // ---------------------------------------------------------------- what the count is

  /** The i-th step binds. */
  predicate BindsAt(statuses: seq<Status>, steps: seq<Step>, i: nat)
    requires IsRun(statuses, steps) && i < |steps|
  {
    steps[i].Reconcile? && Follows(statuses, steps[i], i)
    && Binds(steps[i].spec, steps[i].expired, steps[i].env, statuses[steps[i].readAt])
  }

  function Enrollments(steps: seq<Step>, n: nat): nat
    requires n <= |steps|
  {
    if n == 0 then 0 else Enrollments(steps, n - 1) + if steps[n - 1].Enroll? then 1 else 0
  }

  /** The enrollments that are in the count: a bind has those of the copy it read. */
  function Credits(statuses: seq<Status>, steps: seq<Step>, n: nat): nat
    requires IsRun(statuses, steps) && n <= |steps|
  {
    if n == 0 then 0
    else if steps[n - 1].Enroll? then Credits(statuses, steps, n - 1) + 1
    else if BindsAt(statuses, steps, n - 1) then Credits(statuses, steps, steps[n - 1].readAt)
    else Credits(statuses, steps, n - 1)
  }

  /** In every run the count is the number of bound peers and of enrollments that no bind has overwritten. */
  lemma {:induction false} CountIs(statuses: seq<Status>, steps: seq<Step>, n: nat)
    requires IsRun(statuses, steps) && n <= |steps|
    ensures statuses[n].usedCount == |statuses[n].boundPeers| + Credits(statuses, steps, n)
  {
    hide Reconciled, Binds;
    if n > 0 {
      CountIs(statuses, steps, n - 1);
      assert Follows(statuses, steps[n - 1], n - 1);
      if steps[n - 1].Reconcile? {
        var Reconcile(spec, expired, env, r) := steps[n - 1];
        CountIs(statuses, steps, r);
        BoundAfter(spec, expired, env, statuses[n - 1], statuses[r]);
      }
    }
  }

  lemma {:induction false} EnrollmentsGrow(steps: seq<Step>, r: nat, i: nat)
    requires r <= i <= |steps|
    ensures Enrollments(steps, r) <= Enrollments(steps, i)
    ensures Enrollments(steps, r) == Enrollments(steps, i) <==> forall j | r <= j < i :: !steps[j].Enroll?
    decreases i
  {
    if r < i {
      EnrollmentsGrow(steps, r, i - 1);
    }
  }

  lemma {:induction false} CreditsAtMost(statuses: seq<Status>, steps: seq<Step>, n: nat)
    requires IsRun(statuses, steps) && n <= |steps|
    ensures Credits(statuses, steps, n) <= Enrollments(steps, n)
  {
    hide IsRun, BindsAt;
    if n > 0 {
      CreditsAtMost(statuses, steps, n - 1);
      if BindsAt(statuses, steps, n - 1) {
        ReadsBefore(statuses, steps, n - 1);
        CreditsAtMost(statuses, steps, steps[n - 1].readAt);
        EnrollmentsGrow(steps, steps[n - 1].readAt, n);
      }
    }
  }

  lemma ReadsBefore(statuses: seq<Status>, steps: seq<Step>, i: nat)
    requires IsRun(statuses, steps) && i < |steps| && BindsAt(statuses, steps, i)
    ensures steps[i].Reconcile? && steps[i].readAt <= i
  {
  }

  /** Somebody enrolled between the i-th step and its copy. */
  predicate Overwrites(steps: seq<Step>, i: nat)
    requires i < |steps| && steps[i].Reconcile? && steps[i].readAt <= i
  {
    exists j :: steps[i].readAt <= j < i && steps[j].Enroll?
  }

  /** No bind of the first n steps overwrites an enrollment. */
  predicate NoneOverwritten(statuses: seq<Status>, steps: seq<Step>, n: nat)
    requires IsRun(statuses, steps) && n <= |steps|
  {
    forall i | 0 <= i < n && BindsAt(statuses, steps, i) :: ReadsBefore(statuses, steps, i); !Overwrites(steps, i)
  }

  lemma {:induction false} CreditsKept(statuses: seq<Status>, steps: seq<Step>, n: nat)
    requires IsRun(statuses, steps) && n <= |steps| && NoneOverwritten(statuses, steps, n)
    ensures Credits(statuses, steps, n) == Enrollments(steps, n)
  {
    hide IsRun, BindsAt;
    if n > 0 {
      CreditsKept(statuses, steps, n - 1);
      if BindsAt(statuses, steps, n - 1) {
        ReadsBefore(statuses, steps, n - 1);
        var r := steps[n - 1].readAt;
        CreditsKept(statuses, steps, r);
        assert !Overwrites(steps, n - 1);
        EnrollmentsGrow(steps, r, n - 1);
      }
    }
  }

  /** Over the first n steps of any run the count is always the bound peers and all enrollments so far, exactly
      when no bind overwrites an enrollment that is newer than its copy. */
  lemma CountsEverythingIff(statuses: seq<Status>, steps: seq<Step>, n: nat)
    requires IsRun(statuses, steps) && n <= |steps|
    ensures (forall i | 0 <= i <= n :: statuses[i].usedCount == |statuses[i].boundPeers| + Enrollments(steps, i))
       <==> NoneOverwritten(statuses, steps, n)
  {
    hide Follows, Binds;
    if NoneOverwritten(statuses, steps, n) {
      forall i | 0 <= i <= n
        ensures statuses[i].usedCount == |statuses[i].boundPeers| + Enrollments(steps, i)
      {
        CountIs(statuses, steps, i);
        CreditsKept(statuses, steps, i);
      }
    } else {
      var i :| 0 <= i < n && BindsAt(statuses, steps, i) && (ReadsBefore(statuses, steps, i); Overwrites(steps, i));
      ReadsBefore(statuses, steps, i);
      OverwriteShows(statuses, steps, i);
    }
  }

  lemma OverwriteShows(statuses: seq<Status>, steps: seq<Step>, i: nat)
    requires IsRun(statuses, steps) && i < |steps| && BindsAt(statuses, steps, i) && steps[i].Reconcile?
    requires steps[i].readAt <= i && Overwrites(steps, i)
    ensures i + 1 < |statuses|
    ensures statuses[i + 1].usedCount < |statuses[i + 1].boundPeers| + Enrollments(steps, i + 1)
  {
    CountIs(statuses, steps, i + 1);
    CreditsAtMost(statuses, steps, steps[i].readAt);
    EnrollmentsGrow(steps, steps[i].readAt, i);
    hide Binds, Follows;
  }

  /** In every run of reconciles alone, however stale the copies read, the count is the number of bound peers. */
  lemma UsedCountIsLength(statuses: seq<Status>, steps: seq<Step>, i: nat)
    requires IsRun(statuses, steps) && i < |statuses| && forall j | 0 <= j < |steps| :: steps[j].Reconcile?
    ensures statuses[i].usedCount == |statuses[i].boundPeers|
  {
    hide Reconciled, Binds;
    CountIs(statuses, steps, i);
    CreditsAtMost(statuses, steps, i);
    EnrollmentsGrow(steps, 0, i);
  }

  // ---------------------------------------------------------------- when the count goes down

  /** The uses that are not bound peers. */
  function Extra(s: Status): int { s.usedCount - |s.boundPeers| }

  /** What a bind leaves: what the copy has, as often as it has it, and what else the Spec has, as often as the
      Spec lists it. */
  function Wanted(spec: Spec, read: Status): (m: multiset<string>)
    ensures forall p ::
      m[p] == if p in read.boundPeers then multiset(read.boundPeers)[p] else multiset(spec.boundPeers)[p]
  {
    MissingTimes(spec.boundPeers, Members(read.boundPeers));
    multiset(read.boundPeers) + multiset(Missing(spec.boundPeers, Members(read.boundPeers)))
  }

  lemma {:induction false} MissingTimes(peers: seq<string>, have: set<string>)
    ensures forall p :: multiset(Missing(peers, have))[p] == if p in have then 0 else multiset(peers)[p]
  {
    if peers != [] {
      var n := |peers| - 1;
      MissingTimes(peers[..n], have);
      assert peers == peers[..n] + [peers[n]];
    }
  }

  /** A bind falls when it gains less than it loses, repetitions and enrollments included. */
  predicate Falls(spec: Spec, expired: bool, env: Env, stored: Status, read: Status) {
    var was, now := multiset(stored.boundPeers), Wanted(spec, read);
    Binds(spec, expired, env, read) && |now - was| + Extra(read) < |was - now| + Extra(stored)
  }

  lemma Difference(a: multiset<string>, b: multiset<string>)
    ensures |a| - |b| == |a - b| - |b - a|
  {
    assert a == (a - b) + (a * b) && b == (b - a) + (a * b);
  }

  lemma CountFallsIff(spec: Spec, expired: bool, env: Env, stored: Status, read: Status)
    ensures Reconciled(spec, expired, env, stored, read).usedCount < stored.usedCount <==>
      Falls(spec, expired, env, stored, read)
  {
    BoundAfter(spec, expired, env, stored, read);
    hide Reconciled, Binds, Missing;
    var added := Missing(spec.boundPeers, Members(read.boundPeers));
    Difference(Wanted(spec, read), multiset(stored.boundPeers));
    assert |Wanted(spec, read)| == |read.boundPeers| + |added|;
  }

  predicate FallsAt(statuses: seq<Status>, steps: seq<Step>, i: nat)
    requires IsRun(statuses, steps) && i < |steps|
  {
    steps[i].Reconcile? && Follows(statuses, steps[i], i)
    && Falls(steps[i].spec, steps[i].expired, steps[i].env, statuses[i], statuses[steps[i].readAt])
  }

  lemma StepFallsIff(statuses: seq<Status>, steps: seq<Step>, i: nat)
    requires IsRun(statuses, steps) && i < |steps|
    ensures statuses[i + 1].usedCount < statuses[i].usedCount <==> FallsAt(statuses, steps, i)
  {
    hide Reconciled, Falls;
    assert Follows(statuses, steps[i], i);
    if steps[i].Reconcile? {
      var Reconcile(spec, expired, env, r) := steps[i];
      CountFallsIff(spec, expired, env, statuses[i], statuses[r]);
    }
  }

  predicate NeverDecreases(statuses: seq<Status>, n: nat)
    requires n < |statuses|
  {
    forall i, j | 0 <= i <= j <= n :: statuses[i].usedCount <= statuses[j].usedCount
  }

  lemma {:induction false} StepsRise(statuses: seq<Status>, i: nat, j: nat)
    requires i <= j < |statuses| && forall k | 0 <= k < j :: statuses[k].usedCount <= statuses[k + 1].usedCount
    ensures statuses[i].usedCount <= statuses[j].usedCount
    decreases j
  {
    if i < j {
      StepsRise(statuses, i, j - 1);
    }
  }

  /** Over the first n steps of any run the count never decreases exactly when none of them is a bind that
      gains less than it loses. */
  lemma NeverDecreasesIff(statuses: seq<Status>, steps: seq<Step>, n: nat)
    requires IsRun(statuses, steps) && n <= |steps|
    ensures NeverDecreases(statuses, n) <==> forall i | 0 <= i < n :: !FallsAt(statuses, steps, i)
  {
    forall i | 0 <= i < n
      ensures statuses[i + 1].usedCount < statuses[i].usedCount <==> FallsAt(statuses, steps, i)
    {
      StepFallsIff(statuses, steps, i);
    }
    hide IsRun, FallsAt;
    if forall i | 0 <= i < n :: !FallsAt(statuses, steps, i) {
      forall i, j | 0 <= i <= j <= n ensures statuses[i].usedCount <= statuses[j].usedCount {
        StepsRise(statuses, i, j);
      }
    }
  }

  // ---------------------------------------------------------------- Specs without repetition

  predicate Distinct(peers: seq<string>) { forall i, j :: 0 <= i < j < |peers| ==> peers[i] != peers[j] }

  predicate DistinctSpecs(steps: seq<Step>) {
    forall i | 0 <= i < |steps| && steps[i].Reconcile? :: Distinct(steps[i].spec.boundPeers)
  }

  lemma {:induction false} MissingDistinct(peers: seq<string>, have: set<string>)
    requires Distinct(peers)
    ensures Distinct(Missing(peers, have))
  {
    if peers != [] {
      var n := |peers| - 1;
      MissingDistinct(peers[..n], have);
      MissingMembers(peers[..n], have);
    }
  }

  lemma DistinctAfter(spec: Spec, expired: bool, env: Env, stored: Status, read: Status)
    requires Distinct(spec.boundPeers) && Distinct(stored.boundPeers) && Distinct(read.boundPeers)
    ensures Distinct(Reconciled(spec, expired, env, stored, read).boundPeers)
  {
    BoundAfter(spec, expired, env, stored, read);
    MissingDistinct(spec.boundPeers, Members(read.boundPeers));
    MissingMembers(spec.boundPeers, Members(read.boundPeers));
    hide Reconciled, Binds, Missing;
    var added := Missing(spec.boundPeers, Members(read.boundPeers));
    Joined(read.boundPeers, added);
  }

  lemma Joined(xs: seq<string>, ys: seq<string>)
    requires Distinct(xs) && Distinct(ys) && forall p | p in ys :: p !in xs
    ensures Distinct(xs + ys)
  {
    forall i, j | 0 <= i < j < |xs + ys| ensures (xs + ys)[i] != (xs + ys)[j] {
      assert i < |xs| ==> (xs + ys)[i] in xs;
      assert j >= |xs| ==> (xs + ys)[j] in ys;
    }
  }

  /** While no Spec lists a peer twice, no peer is ever bound twice. */
  lemma {:induction false} BoundOnce(statuses: seq<Status>, steps: seq<Step>, i: nat)
    requires IsRun(statuses, steps) && DistinctSpecs(steps) && i < |statuses|
    ensures Distinct(statuses[i].boundPeers)
  {
    hide Reconciled, Distinct;
    if i > 0 {
      BoundOnce(statuses, steps, i - 1);
      assert Follows(statuses, steps[i - 1], i - 1);
      if steps[i - 1].Reconcile? {
        var Reconcile(spec, expired, env, r) := steps[i - 1];
        BoundOnce(statuses, steps, r);
        DistinctAfter(spec, expired, env, statuses[i - 1], statuses[r]);
      }
    } else {
      assert Distinct([]) by { NoneDistinct(); }
    }
  }

  lemma NoneDistinct()
    ensures Distinct([])
  {
  }

  /** Fewer peers come than go: come are those of the copy or the Spec that are not bound, go are those bound
      that neither has. */
  predicate LosesMore(spec: Spec, expired: bool, env: Env, stored: Status, read: Status) {
    var was, now := Members(stored.boundPeers), Members(read.boundPeers) + Members(spec.boundPeers);
    Binds(spec, expired, env, read) && |now - was| + Extra(read) < |was - now| + Extra(stored)
  }

  lemma {:induction false} DistinctCount(peers: seq<string>)
    requires Distinct(peers)
    ensures |Members(peers)| == |peers|
  {
    if peers != [] {
      var n := |peers| - 1;
      DistinctCount(peers[..n]);
      assert Members(peers) == Members(peers[..n]) + {peers[n]};
      assert peers[n] !in Members(peers[..n]);
    }
  }

  lemma SetDifference(a: set<string>, b: set<string>)
    ensures |a| - |b| == |a - b| - |b - a|
  {
    assert a == (a - b) + (a * b) && b == (b - a) + (a * b);
    assert |a| == |a - b| + |a * b| && |b| == |b - a| + |a * b|;
  }

  /** For lists without repetition the same in sets. */
  lemma DistinctFallsIff(spec: Spec, expired: bool, env: Env, stored: Status, read: Status)
    requires Distinct(spec.boundPeers) && Distinct(stored.boundPeers) && Distinct(read.boundPeers)
    ensures Reconciled(spec, expired, env, stored, read).usedCount < stored.usedCount <==>
      LosesMore(spec, expired, env, stored, read)
  {
    BoundAfter(spec, expired, env, stored, read);
    DistinctAfter(spec, expired, env, stored, read);
    MissingMembers(spec.boundPeers, Members(read.boundPeers));
    MissingDistinct(spec.boundPeers, Members(read.boundPeers));
    hide Reconciled, Binds, Missing;
    var added := Missing(spec.boundPeers, Members(read.boundPeers));
    var was, now := Members(stored.boundPeers), Members(read.boundPeers) + Members(spec.boundPeers);
    assert now == Members(read.boundPeers) + Members(added);
    DistinctCount(read.boundPeers);
    DistinctCount(added);
    DistinctCount(stored.boundPeers);
    assert |now| == |Members(read.boundPeers)| + |Members(added)|;
    SetDifference(now, was);
  }

  predicate LosesMoreAt(statuses: seq<Status>, steps: seq<Step>, i: nat)
    requires IsRun(statuses, steps) && i < |steps|
  {
    steps[i].Reconcile? && Follows(statuses, steps[i], i)
    && LosesMore(steps[i].spec, steps[i].expired, steps[i].env, statuses[i], statuses[steps[i].readAt])
  }

  /** So while no Spec lists a peer twice, the count never decreases exactly when no bind loses more peers and
      enrollments than it gains. */
  lemma DistinctNeverDecreasesIff(statuses: seq<Status>, steps: seq<Step>, n: nat)
    requires IsRun(statuses, steps) && n <= |steps| && DistinctSpecs(steps)
    ensures NeverDecreases(statuses, n) <==> forall i | 0 <= i < n :: !LosesMoreAt(statuses, steps, i)
  {
    forall i | 0 <= i < n ensures FallsAt(statuses, steps, i) <==> LosesMoreAt(statuses, steps, i) {
      StepLosesIff(statuses, steps, i);
    }
    hide IsRun, FallsAt, LosesMoreAt, NeverDecreases;
    NeverDecreasesIff(statuses, steps, n);
  }

  lemma StepLosesIff(statuses: seq<Status>, steps: seq<Step>, i: nat)
    requires IsRun(statuses, steps) && i < |steps| && DistinctSpecs(steps)
    ensures FallsAt(statuses, steps, i) <==> LosesMoreAt(statuses, steps, i)
  {
    hide Reconciled, Falls, LosesMore, Distinct;
    if steps[i].Reconcile? {
      var Reconcile(spec, expired, env, r) := steps[i];
      assert Follows(statuses, steps[i], i);
      BoundOnce(statuses, steps, i);
      BoundOnce(statuses, steps, r);
      CountFallsIff(spec, expired, env, statuses[i], statuses[r]);
      DistinctFallsIff(spec, expired, env, statuses[i], statuses[r]);
    }
  }

  // ---------------------------------------------------------------- when a bound peer is lost

  /** A peer bound so far that is neither in the copy read nor in the Spec. */
  predicate Forgotten(spec: Spec, stored: Status, read: Status) {
    exists p :: p in stored.boundPeers && p !in read.boundPeers && p !in spec.boundPeers
  }

  predicate Loses(stored: Status, after: Status) {
    exists p :: p in stored.boundPeers && p !in after.boundPeers
  }

  /** A reconcile takes a bound peer away exactly when it binds, and the Spec has lost a peer that was bound
      after the copy was made. */
  lemma PeerIsLostIff(spec: Spec, expired: bool, env: Env, stored: Status, read: Status)
    ensures Loses(stored, Reconciled(spec, expired, env, stored, read)) <==>
      Binds(spec, expired, env, read) && Forgotten(spec, stored, read)
  {
    BoundAfter(spec, expired, env, stored, read);
    MissingMembers(spec.boundPeers, Members(read.boundPeers));
    hide Reconciled, Missing, Binds;
  }

  predicate ForgetsAt(statuses: seq<Status>, steps: seq<Step>, i: nat)
    requires IsRun(statuses, steps) && i < |steps|
  {
    BindsAt(statuses, steps, i) && Forgotten(steps[i].spec, statuses[i], statuses[steps[i].readAt])
  }

  /** Over the first n steps of any run no bound peer is ever lost exactly when no step that binds has
      forgotten one. */
  lemma NeverLosesIff(statuses: seq<Status>, steps: seq<Step>, n: nat)
    requires IsRun(statuses, steps) && n <= |steps|
    ensures (forall i | 0 <= i < n :: !Loses(statuses[i], statuses[i + 1])) <==>
      (forall i | 0 <= i < n :: !ForgetsAt(statuses, steps, i))
  {
    hide Reconciled, Binds, Forgotten;
    forall i | 0 <= i < n ensures Loses(statuses[i], statuses[i + 1]) <==> ForgetsAt(statuses, steps, i) {
      assert Follows(statuses, steps[i], i);
      if steps[i].Reconcile? {
        var Reconcile(spec, expired, env, r) := steps[i];
        PeerIsLostIff(spec, expired, env, statuses[i], statuses[r]);
      }
    }
  }

  // ---------------------------------------------------------------- when neither happens

  /** With the copy read up to date, bound peers are only added. */
  lemma FreshStepGrows(spec: Spec, expired: bool, env: Env, stored: Status)
    ensures stored.boundPeers <= Reconciled(spec, expired, env, stored, stored).boundPeers
    ensures stored.usedCount <= Reconciled(spec, expired, env, stored, stored).usedCount
  {
  }

  /** Up-to-date copies: the count never decreases, however the Spec is edited and whoever enrolls. */
  lemma {:induction false} UsedCountNeverDecreases(statuses: seq<Status>, steps: seq<Step>, i: nat, j: nat)
    requires IsRun(statuses, steps) && i <= j < |statuses|
    requires forall k | i <= k < |steps| && steps[k].Reconcile? :: steps[k].readAt == k
    ensures statuses[i].usedCount <= statuses[j].usedCount && statuses[i].boundPeers <= statuses[j].boundPeers
    decreases j
  {
    hide Reconciled;
    if i < j {
      UsedCountNeverDecreases(statuses, steps, i, j - 1);
      assert Follows(statuses, steps[j - 1], j - 1);
      if steps[j - 1].Reconcile? {
        FreshStepGrows(steps[j - 1].spec, steps[j - 1].expired, steps[j - 1].env, statuses[j - 1]);
      }
    }
  }

  /** Nothing bound, or all that the Spec binds, in the Spec's order. */
  predicate AllOrNothing(spec: Spec, s: Status) { s.boundPeers == [] || s.boundPeers == spec.boundPeers }

  lemma {:induction false} NothingMissing(peers: seq<string>, have: set<string>)
    requires forall p | p in peers :: p in have
    ensures Missing(peers, have) == []
  {
    if peers != [] {
      NothingMissing(peers[..|peers| - 1], have);
    }
  }

  lemma {:induction false} MissingFromNone(peers: seq<string>)
    ensures Missing(peers, {}) == peers
  {
    if peers != [] {
      var n := |peers| - 1;
      MissingFromNone(peers[..n]);
      assert peers == peers[..n] + [peers[n]];
    }
  }

  lemma FixedSpecStep(spec: Spec, expired: bool, env: Env, stored: Status, read: Status)
    requires AllOrNothing(spec, stored) && AllOrNothing(spec, read)
    ensures var after := Reconciled(spec, expired, env, stored, read);
      AllOrNothing(spec, after) && stored.boundPeers <= after.boundPeers
  {
    BoundAfter(spec, expired, env, stored, read);
    hide Missing, Reconciled;
    if read.boundPeers == [] {
      assert Members(read.boundPeers) == {};
      MissingFromNone(spec.boundPeers);
      assert read.boundPeers + spec.boundPeers == spec.boundPeers;
    } else {
      NothingMissing(spec.boundPeers, Members(read.boundPeers));
      assert read.boundPeers + [] == read.boundPeers;
    }
  }

  predicate SpecIs(steps: seq<Step>, spec: Spec) {
    forall k | 0 <= k < |steps| && steps[k].Reconcile? :: steps[k].spec == spec
  }

  lemma {:induction false} FixedSpecBinds(statuses: seq<Status>, steps: seq<Step>, spec: Spec, i: nat, j: nat)
    requires IsRun(statuses, steps) && i <= j < |statuses| && SpecIs(steps, spec)
    ensures AllOrNothing(spec, statuses[j]) && statuses[i].boundPeers <= statuses[j].boundPeers
    decreases j
  {
    hide Reconciled;
    if j > 0 {
      FixedSpecBinds(statuses, steps, spec, if i < j then i else j - 1, j - 1);
      assert Follows(statuses, steps[j - 1], j - 1);
      if steps[j - 1].Reconcile? {
        var Reconcile(_, expired, env, r) := steps[j - 1];
        FixedSpecBinds(statuses, steps, spec, 0, r);
        FixedSpecStep(spec, expired, env, statuses[j - 1], statuses[r]);
      }
    }
  }

  /** While the Spec is not edited, no copy is too old for the bound peers: they stay. And the count never
      decreases while no bind overwrites an enrollment. */
  lemma FixedSpecNeverDecreases(statuses: seq<Status>, steps: seq<Step>, spec: Spec, i: nat, j: nat)
    requires IsRun(statuses, steps) && i <= j < |statuses| && SpecIs(steps, spec)
    ensures AllOrNothing(spec, statuses[j]) && statuses[i].boundPeers <= statuses[j].boundPeers
    ensures NoneOverwritten(statuses, steps, j) ==> statuses[i].usedCount <= statuses[j].usedCount
  {
    FixedSpecBinds(statuses, steps, spec, i, j);
    CountsEverythingIff(statuses, steps, j);
    EnrollmentsGrow(steps, i, j);
    hide IsRun, NoneOverwritten;
  }

  /** While the Spec is not edited, the token in the status is the Spec's from when it is first set. */
  lemma {:induction false} FixedSpecToken(statuses: seq<Status>, steps: seq<Step>, spec: Spec, i: nat, j: nat)
    requires IsRun(statuses, steps) && i <= j < |statuses| && SpecIs(steps, spec)
    ensures statuses[j].token in {"", spec.token}
    ensures statuses[i].token != "" ==> statuses[j].token == spec.token
    decreases j
  {
    StatusFromSpec(statuses, steps, j);
    hide Reconciled;
    if i < j {
      FixedSpecToken(statuses, steps, spec, i, j - 1);
      assert Follows(statuses, steps[j - 1], j - 1);
      if steps[j - 1].Reconcile? {
        var Reconcile(_, expired, env, r) := steps[j - 1];
        StatusFromSpec(statuses, steps, r);
        TokenStepKeeps(spec, expired, env, statuses[j - 1], statuses[r]);
      }
    }
  }

  // ---------------------------------------------------------------- runs in which it goes down

  function Pass(spec: Spec, readAt: nat): Step { Reconcile(spec, false, ALL_APPLIED, readAt) }

  function Holding(token: string, peers: seq<string>, count: nat): Status { Status("", false, token, peers, count) }

  /** The first reconcile copies the token, and the next from any later copy binds. */
  lemma TokenFirst(token: string, peers: seq<string>)
    requires token != ""
    ensures Reconciled(Spec(token, peers), false, ALL_APPLIED, FRESH, FRESH) == Holding(token, [], 0)
  {
  }

  lemma BindFromNone(token: string, peers: seq<string>, stored: seq<string>, count: nat)
    requires token != "" && peers != []
    ensures Reconciled(Spec(token, peers), false, ALL_APPLIED, Holding(token, stored, count), Holding(token, [], 0))
         == Holding(token, peers, |peers|)
  {
    assert Members([]) == {};
    MissingFromNone(peers);
    hide Missing;
    assert [] + peers == peers;
  }

  /** A run from a fresh token: one Spec is bound, the Spec is edited, and a reconcile that still reads the token
      without peers binds the other one over it. */
  lemma Replaced(token: string, bound: seq<string>, edited: seq<string>)
    returns (statuses: seq<Status>, steps: seq<Step>)
    requires token != "" && bound != [] && edited != []
    ensures IsRun(statuses, steps) && |steps| == 3
    ensures steps == [Pass(Spec(token, bound), 0), Pass(Spec(token, bound), 1), Pass(Spec(token, edited), 1)]
    ensures statuses[2] == Holding(token, bound, |bound|) && statuses[3] == Holding(token, edited, |edited|)
  {
    TokenFirst(token, bound);
    BindFromNone(token, bound, [], 0);
    BindFromNone(token, edited, bound, |bound|);
    hide Reconciled;
    steps := [Pass(Spec(token, bound), 0), Pass(Spec(token, bound), 1), Pass(Spec(token, edited), 1)];
    statuses := [FRESH, Holding(token, [], 0), Holding(token, bound, |bound|), Holding(token, edited, |edited|)];
  }

  /** The count goes down, and a peer is lost. */
  lemma CountDecreases(token: string, a: string, b: string) returns (statuses: seq<Status>, steps: seq<Step>)
    requires token != "" && a != b
    ensures IsRun(statuses, steps) && |steps| == 3 && DistinctSpecs(steps)
    ensures statuses[2].usedCount == 2 && statuses[3].usedCount == 1 && Loses(statuses[2], statuses[3])
  {
    statuses, steps := Replaced(token, [a, b], [a]);
    assert b in statuses[2].boundPeers && b !in statuses[3].boundPeers;
  }

  /** A Spec that lists a peer twice: the count goes down and no peer is ever lost. */
  lemma RepeatedPeerDecreases(token: string, a: string) returns (statuses: seq<Status>, steps: seq<Step>)
    requires token != ""
    ensures IsRun(statuses, steps) && |steps| == 3
    ensures statuses[2].usedCount == 2 && statuses[3].usedCount == 1
    ensures forall i | 0 <= i < 3 :: !Loses(statuses[i], statuses[i + 1])
  {
    statuses, steps := Replaced(token, [a, a], [a]);
    TokenFirst(token, [a, a]);
    assert Follows(statuses, steps[0], 0);
    hide Reconciled;
    assert a in statuses[3].boundPeers;
  }

  /** A peer is lost and the count stays: another one has come. */
  lemma LostPeerKeepsCount(token: string, a: string, b: string, d: string)
    returns (statuses: seq<Status>, steps: seq<Step>)
    requires token != "" && a != b && b != d && a != d
    ensures IsRun(statuses, steps) && |steps| == 3 && DistinctSpecs(steps)
    ensures NeverDecreases(statuses, 3) && Loses(statuses[2], statuses[3])
  {
    statuses, steps := Replaced(token, [a, b], [a, d]);
    TokenFirst(token, [a, b]);
    assert Follows(statuses, steps[0], 0);
    hide Reconciled;
    assert b in statuses[2].boundPeers && b !in statuses[3].boundPeers;
  }

  /** Two enrollments are overwritten by a bind with a fixed Spec that reads the token from before them. */
  lemma EnrollmentsOverwritten(token: string, a: string) returns (statuses: seq<Status>, steps: seq<Step>)
    requires token != ""
    ensures IsRun(statuses, steps) && |steps| == 4 && SpecIs(steps, Spec(token, [a]))
    ensures Enrollments(steps, 4) == 2 && statuses[3].usedCount == 2 && statuses[4].usedCount == 1
  {
    TokenFirst(token, [a]);
    BindFromNone(token, [a], [], 2);
    hide Reconciled;
    steps := [Pass(Spec(token, [a]), 0), Enroll, Enroll, Pass(Spec(token, [a]), 1)];
    statuses := [FRESH, Holding(token, [], 0), Holding(token, [], 1), Holding(token, [], 2), Holding(token, [a], 1)];
    assert Enrollments(steps, 1) == 0;
    assert Enrollments(steps, 2) == 1;
  }
}
