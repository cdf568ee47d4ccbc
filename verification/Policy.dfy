/** Label-selector policies and the peers they select. */
module Policy {
  import opened Prelude
  import opened KeyNames

  type Labels = map<string, string>

  datatype Requirement =
    | In(key: string, values: set<string>)
    | NotIn(key: string, values: set<string>)
    | Exists(key: string)
    | DoesNotExist(key: string)

  datatype Selector = Selector(matchLabels: Labels, requirements: seq<Requirement>)

  predicate Holds(r: Requirement, labels: Labels) {
    match r
    case In(k, vs) => k in labels && labels[k] in vs
    case NotIn(k, vs) => k !in labels || labels[k] !in vs
    case Exists(k) => k in labels
    case DoesNotExist(k) => k !in labels
  }

  /** An empty selector matches everything. */
  predicate Matches(sel: Selector, labels: Labels) {
    && (forall k | k in sel.matchLabels :: k in labels && labels[k] == sel.matchLabels[k])
    && (forall r | r in sel.requirements :: Holds(r, labels))
  }

  const EVERYONE := Selector(map[], [])

  /** The laws of label selectors: the requirements come in opposites, a matched label is a requirement with one
      value, more requirements match less, and the empty selector matches everything. */
  lemma SelectorLaws(k: string, v: string, vs: set<string>, r: Requirement, sel: Selector, labels: Labels)
    ensures Holds(NotIn(k, vs), labels) <==> !Holds(In(k, vs), labels)
    ensures Holds(DoesNotExist(k), labels) <==> !Holds(Exists(k), labels)
    ensures Holds(Exists(k), labels) <==> k in labels
    ensures Holds(In(k, vs), labels) <==> exists x :: x in vs && Holds(In(k, {x}), labels)
    ensures Holds(In(k, {v}), labels) <==> Matches(Selector(map[k := v], []), labels)
    ensures Matches(Selector(map[k := v], []), labels) <==> k in labels && labels[k] == v
    ensures Matches(sel.(requirements := sel.requirements + [r]), labels) <==> Matches(sel, labels) && Holds(r, labels)
    ensures Matches(sel.(matchLabels := sel.matchLabels[k := v]), labels) ==> k in labels && labels[k] == v
    ensures Matches(EVERYONE, labels)
  {
    var one, more := Selector(map[k := v], []), sel.(requirements := sel.requirements + [r]);
    assert k in one.matchLabels && k in sel.matchLabels[k := v];
    if Holds(In(k, vs), labels) {
      assert labels[k] in vs && Holds(In(k, {labels[k]}), labels);
    }
    if Matches(more, labels) {
      assert r in more.requirements;
      assert forall q | q in sel.requirements :: q in more.requirements;
    }
  }

  /** A selection by labels, by address block, or both; without a selector it selects no peer. */
  datatype Selection = Selection(peers: Option<Selector>, ipBlock: Option<string>)

  predicate Selects(x: Selection, labels: Labels) {
    x.peers.Some? && Matches(x.peers.value, labels)
  }

  datatype Port = Port(port: int, protocol: string)

  datatype TrafficSpec = TrafficSpec(selections: seq<Selection>, ports: seq<Port>)

  datatype LatticePolicy = LatticePolicy(
    network: string,
    applies: Selector,
    ingress: seq<TrafficSpec>,
    egress: seq<TrafficSpec>,
    action: string)

  /** A peer as it is put into an agent's configuration. */
  datatype Member = Member(name: string, labels: Labels, address: Option<string>, allowedIPs: string)

  ghost predicate DistinctNames(members: seq<Member>) {
    forall i, j | 0 <= i < |members| && 0 <= j < |members| && members[i].name == members[j].name :: i == j
  }

  predicate Reaches(specs: seq<TrafficSpec>, labels: Labels) {
    exists s, x :: s in specs && x in s.selections && Selects(x, labels)
  }

  /** A policy concerns a pair of peers when it applies to the first and one of its rules, of either
      direction, selects the second. */
  predicate Concerns(p: LatticePolicy, current: Labels, other: Labels) {
    Matches(p.applies, current) && (Reaches(p.egress, other) || Reaches(p.ingress, other))
  }

  /** The tunnel peers of a peer: the other members some policy connects it with. */
  ghost predicate IsComputedPeer(current: Member, policies: seq<LatticePolicy>, m: Member) {
    m.name != current.name && exists p :: p in policies && Concerns(p, current.labels, m.labels)
  }

  // ---------------------------------------------------------------- the resolver

  method ResolveSelection(x: Selection, members: seq<Member>) returns (r: seq<Member>)
    ensures forall m :: m in r <==> m in members && Selects(x, m.labels)
  {
    r := [];
    for i := 0 to |members|
      invariant forall m :: m in r <==> m in members[..i] && Selects(x, m.labels)
    {
      if Selects(x, members[i].labels) {
        r := r + [members[i]];
      }
      assert members[..i + 1] == members[..i] + [members[i]];
    }
    assert members[..|members|] == members;
  }

  /** What the resolver's map holds: members under their own names, never the current one. */
  ghost predicate WellFound(found: map<string, Member>, members: seq<Member>, current: string) {
    forall n | n in found :: found[n] in members && found[n].name == n && n != current
  }

  predicate Has(found: map<string, Member>, m: Member) {
    m.name in found && found[m.name] == m
  }

  method AddMatches(found: map<string, Member>, x: Selection, members: seq<Member>, current: string)
    returns (r: map<string, Member>)
    requires DistinctNames(members) && WellFound(found, members, current)
    ensures WellFound(r, members, current)
    ensures forall m | m in members :: Has(r, m) <==> Has(found, m) || (m.name != current && Selects(x, m.labels))
  {
    var matched := ResolveSelection(x, members);
    r := found;
    for i := 0 to |matched|
      invariant WellFound(r, members, current)
      invariant forall m | m in members :: Has(r, m) <==> Has(found, m) || (m.name != current && m in matched[..i])
    {
      var p := matched[i];
      assert matched[..i + 1] == matched[..i] + [p];
      assert p in members;
      if p.name != current {
        SameNameSameMember(members, p);
        r := r[p.name := p];
      }
    }
    assert matched[..|matched|] == matched;
  }

  lemma SameNameSameMember(members: seq<Member>, p: Member)
    requires DistinctNames(members) && p in members
    ensures forall m | m in members && m.name == p.name :: m == p
  {
    forall m | m in members && m.name == p.name ensures m == p {
      var i :| 0 <= i < |members| && members[i] == m;
      var j :| 0 <= j < |members| && members[j] == p;
    }
  }

  method AddSpecs(found: map<string, Member>, specs: seq<TrafficSpec>, members: seq<Member>, current: string)
    returns (r: map<string, Member>)
    requires DistinctNames(members) && WellFound(found, members, current)
    ensures WellFound(r, members, current)
    ensures forall m | m in members :: Has(r, m) <==> Has(found, m) || (m.name != current && Reaches(specs, m.labels))
  {
    hide Has, WellFound, Selects;
    r := found;
    for i := 0 to |specs|
      invariant WellFound(r, members, current)
      invariant forall m | m in members :: Has(r, m) <==>
        Has(found, m) || (m.name != current && Reaches(specs[..i], m.labels))
    {
      ghost var before := r;
      var sels := specs[i].selections;
      for j := 0 to |sels|
        invariant WellFound(r, members, current)
        invariant forall m | m in members :: Has(r, m) <==>
          Has(before, m) || (m.name != current && SelectedBy(sels[..j], m.labels))
      {
        r := AddMatches(r, sels[j], members, current);
        SelectedByNext(sels, j);
      }
      assert sels[..|sels|] == sels;
      ReachesNext(specs, i);
    }
    assert specs[..|specs|] == specs;
  }

  predicate SelectedBy(sels: seq<Selection>, labels: Labels) {
    exists x :: x in sels && Selects(x, labels)
  }

  lemma SelectedByNext(sels: seq<Selection>, j: nat)
    requires j < |sels|
    ensures forall l: Labels :: SelectedBy(sels[..j + 1], l) <==> SelectedBy(sels[..j], l) || Selects(sels[j], l)
  {
    hide Selects;
    assert sels[..j + 1] == sels[..j] + [sels[j]];
  }

  lemma ReachesNext(specs: seq<TrafficSpec>, i: nat)
    requires i < |specs|
    ensures forall l: Labels :: Reaches(specs[..i + 1], l) <==>
      Reaches(specs[..i], l) || SelectedBy(specs[i].selections, l)
  {
    hide Selects;
    assert specs[..i + 1] == specs[..i] + [specs[i]];
    forall l: Labels ensures Reaches(specs[..i + 1], l) <==>
      Reaches(specs[..i], l) || SelectedBy(specs[i].selections, l) {
      if SelectedBy(specs[i].selections, l) {
        var x :| x in specs[i].selections && Selects(x, l);
        assert specs[i] in specs[..i + 1];
      }
    }
  }

  /** GetComputedPeers, up to the order of the returned list. */
  method GetComputedPeers(current: Member, members: seq<Member>, policies: seq<LatticePolicy>)
    returns (r: map<string, Member>)
    requires DistinctNames(members)
    ensures forall n | n in r :: r[n] in members && r[n].name == n && IsComputedPeer(current, policies, r[n])
    ensures forall m | m in members && IsComputedPeer(current, policies, m) :: m.name in r && r[m.name] == m
  {
    hide Reaches, Matches;
    r := map[];
    for i := 0 to |policies|
      invariant WellFound(r, members, current.name)
      invariant forall m | m in members :: Has(r, m) <==> IsComputedPeer(current, policies[..i], m)
    {
      ghost var before := r;
      var p := policies[i];
      if Matches(p.applies, current.labels) {
        r := AddSpecs(r, p.egress, members, current.name);
        r := AddSpecs(r, p.ingress, members, current.name);
      }
      assert policies[..i + 1] == policies[..i] + [p];
      assert forall m | m in members :: Has(r, m) <==>
        Has(before, m) || (m.name != current.name && Concerns(p, current.labels, m.labels));
    }
    assert policies[..|policies|] == policies;
  }
}
