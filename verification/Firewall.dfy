/** Emitting the decisions as an ordered rule list, the chain built from it, and the verdict the chain
    gives a packet. Rules are emitted in map iteration order, so every statement is for all orders. */
module Firewall {
  import opened Prelude
  import opened Policy
  import opened RuleCompiler

  // ================================================================ emission

  datatype TrafficRule = TrafficRule(chain: string, peers: seq<string>, port: int, protocol: string, action: string)

  const INGRESS_CHAIN := "LATTICE-INGRESS"
  const EGRESS_CHAIN := "LATTICE-EGRESS"
  const ACCEPT := "ACCEPT"
  const DROP := "DROP"

  function Lower(ch: char): char {
    if 'A' <= ch <= 'Z' then ch - 'A' + 'a' else ch
  }

  /** strings.EqualFold(action, "ALLOW") */
  predicate IsAllow(action: string) {
    |action| == 5 && forall i | 0 <= i < 5 :: Lower(action[i]) == "allow"[i]
  }

  function ToIptAction(action: string): string {
    if IsAllow(action) then ACCEPT else DROP
  }

  /** A list of all elements of a set, each once. */
  ghost predicate Enumerates(order: seq<Flow>, all: set<Flow>) {
    && |order| == |all|
    && (forall x :: x in order <==> x in all)
  }

  function RuleOf(chain: string, f: Flow, action: string): TrafficRule {
    TrafficRule(chain, [f.peer], f.port, f.protocol, ToIptAction(action))
  }

  function Emitted(chain: string, order: seq<Flow>, d: Decisions): seq<TrafficRule>
    requires forall f | f in order :: f in d
  {
    if order == [] then []
    else [RuleOf(chain, order[0], d[order[0]])] + Emitted(chain, order[1..], d)
  }

  /** One rule for each decided flow, in some order, then the default deny. */
  ghost predicate IsEmission(chain: string, d: Decisions, rules: seq<TrafficRule>) {
    exists order :: Enumerates(order, d.Keys) &&
      rules == Emitted(chain, order, d) + [TrafficRule(chain, [], 0, "", DROP)]
  }

  /** The map is walked in whatever order. */
  method Emit(chain: string, d: Decisions) returns (rules: seq<TrafficRule>)
    ensures IsEmission(chain, d, rules)
  {
    hide ToIptAction;
    rules := [];
    ghost var order: seq<Flow> := [];
    var rest := d.Keys;
    while rest != {}
      invariant rest <= d.Keys && |order| + |rest| == |d.Keys|
      invariant forall f :: f in d.Keys <==> f in rest || f in order
      invariant rules == Emitted(chain, order, d)
      decreases |rest|
    {
      var f :| f in rest;
      EmittedSnoc(chain, order, f, d);
      rules := rules + [RuleOf(chain, f, d[f])];
      order := order + [f];
      rest := rest - {f};
    }
    rules := rules + [TrafficRule(chain, [], 0, "", DROP)];
    assert Enumerates(order, d.Keys);
  }

  lemma {:induction false} EmittedSnoc(chain: string, order: seq<Flow>, f: Flow, d: Decisions)
    requires f in d && forall g | g in order :: g in d
    ensures Emitted(chain, order + [f], d) == Emitted(chain, order, d) + [RuleOf(chain, f, d[f])]
  {
    if order == [] {
      assert [f][1..] == [];
    } else {
      EmittedSnoc(chain, order[1..], f, d);
      assert (order + [f])[1..] == order[1..] + [f];
    }
  }

  /** The decisions of one direction, as a function of the rules of that direction. */
  function DecisionsOf(rules: seq<Rule>, members: seq<Member>, current: string): Decisions {
    Fold(map[], AllContributions(rules, AddressByName(members), current))
  }

  /** Evaluate: both directions decided and emitted. */
  method Evaluate(current: string, members: seq<Member>, policies: seq<Compiled>)
    returns (ingress: seq<TrafficRule>, egress: seq<TrafficRule>)
    ensures IsEmission(INGRESS_CHAIN, DecisionsOf(IngressRules(policies), members, current), ingress)
    ensures IsEmission(EGRESS_CHAIN, DecisionsOf(EgressRules(policies), members, current), egress)
  {
    hide Fold, AllContributions, AddressByName, IsEmission;
    var din, dout := EvaluateDecisions(current, members, policies);
    ingress := Emit(INGRESS_CHAIN, din);
    egress := Emit(EGRESS_CHAIN, dout);
  }

  /** With actions exactly ALLOW and DENY, a flow is emitted as ACCEPT exactly when some contributing
      rule allows it. */
  lemma AcceptIffContributed(cs: seq<Contribution>, f: Flow)
    requires Canonical(cs)
    ensures f in Fold(map[], cs) && ToIptAction(Fold(map[], cs)[f]) == ACCEPT <==> Contribution(f, ALLOW) in cs
  {
    hide Fold, IsAllow;
    DecisionMeaning(cs, f);
    CanonicalAllow();
    assert ACCEPT[0] != DROP[0];
  }

  // ================================================================ the chain

  /** An entry of the chain: established traffic, traffic of one peer (of one protocol and port, or
      all of it), or everything. */
  datatype Entry =
    | Established
    | FromPeer(peer: string, only: Option<Port>, target: string)
    | Everything(target: string)

  /** addRule: without a protocol or without a port the entry covers all traffic of the peer. */
  function EntryFor(ip: string, tr: TrafficRule): Entry {
    FromPeer(ip,
             if tr.protocol != "" && tr.port != 0 then Some(Port(tr.port, LowerAll(tr.protocol))) else None,
             if tr.action == "" then ACCEPT else tr.action)
  }

  /** strings.ToLower, on ASCII letters. */
  function LowerAll(s: string): (r: string)
    ensures |r| == |s|
    ensures forall i | 0 <= i < |s| :: r[i] == if 'A' <= s[i] <= 'Z' then s[i] - 'A' + 'a' else s[i]
  {
    if s == "" then "" else [Lower(s[0])] + LowerAll(s[1..])
  }

  function EntriesFor(tr: TrafficRule): seq<Entry> {
    seq(|tr.peers|, i requires 0 <= i < |tr.peers| => EntryFor(tr.peers[i], tr))
  }

  function Entries(rules: seq<TrafficRule>): seq<Entry> {
    if rules == [] then [] else Entries(rules[..|rules| - 1]) + EntriesFor(rules[|rules| - 1])
  }

  function ChainFor(rules: seq<TrafficRule>): seq<Entry> {
    [Established] + Entries(rules) + [Everything(DROP)]
  }

  /** The two chains of the Linux provisioner. */
  class Chains {
    var ingress: seq<Entry>
    var egress: seq<Entry>

    constructor () { ingress, egress := [], []; }

    /** Flush both chains and rebuild them. */
    method Provision(ingressRules: seq<TrafficRule>, egressRules: seq<TrafficRule>)
      modifies this
      ensures ingress == ChainFor(ingressRules) && egress == ChainFor(egressRules)
    {
      hide EntriesFor;
      ingress, egress := [], [];
      ingress, egress := ingress + [Established], egress + [Established];
      for i := 0 to |ingressRules|
        invariant ingress == [Established] + Entries(ingressRules[..i]) && egress == [Established]
      {
        ingress := AppendAll(ingress, ingressRules[i]);
        assert ingressRules[..i + 1][..i] == ingressRules[..i];
      }
      assert ingressRules[..|ingressRules|] == ingressRules;
      for i := 0 to |egressRules|
        invariant egress == [Established] + Entries(egressRules[..i])
        invariant ingress == [Established] + Entries(ingressRules)
      {
        egress := AppendAll(egress, egressRules[i]);
        assert egressRules[..i + 1][..i] == egressRules[..i];
      }
      assert egressRules[..|egressRules|] == egressRules;
      ingress := ingress + [Everything(DROP)];
      egress := egress + [Everything(DROP)];
    }
  }

  method AppendAll(chain: seq<Entry>, tr: TrafficRule) returns (r: seq<Entry>)
    ensures r == chain + EntriesFor(tr)
  {
    r := chain;
    for j := 0 to |tr.peers|
      invariant r == chain + EntriesFor(tr)[..j]
    {
      r := r + [EntryFor(tr.peers[j], tr)];
    }
  }

  // ================================================================ orders of the contributions

  /** What is emitted for a flow, if anything. */
  function EmittedAction(cs: seq<Contribution>, f: Flow): Option<string> {
    if f in Fold(map[], cs) then Some(ToIptAction(Fold(map[], cs)[f])) else None
  }

  ghost predicate SameInEveryOrder(cs: seq<Contribution>, f: Flow) {
    forall xs | multiset(xs) == multiset(cs) :: EmittedAction(xs, f) == EmittedAction(cs, f)
  }

  predicate SaySame(cs: seq<Contribution>, f: Flow) {
    forall x, y | x in cs && y in cs && x.flow == f && y.flow == f :: IsAllow(x.action) <==> IsAllow(y.action)
  }

  /** For any actions, what is emitted for a flow is the same for every order of the contributions exactly when
      one of them is spelled ALLOW, or all of them agree on whether they allow. */
  lemma OrderIrrelevantIff(cs: seq<Contribution>, f: Flow)
    ensures SameInEveryOrder(cs, f) <==> Contribution(f, ALLOW) in cs || SaySame(cs, f)
  {
    hide IsAllow;
    if Contribution(f, ALLOW) in cs || SaySame(cs, f) {
      forall xs | multiset(xs) == multiset(cs) ensures EmittedAction(xs, f) == EmittedAction(cs, f) {
        SameContributions(xs, cs);
        DecisionMeaning(xs, f);
        DecisionMeaning(cs, f);
      }
    } else {
      var x, y :| x in cs && y in cs && x.flow == f && y.flow == f && IsAllow(x.action) != IsAllow(y.action);
      var xs := MovedLast(cs, x);
      var ys := MovedLast(cs, y);
      assert EmittedAction(xs, f) != EmittedAction(ys, f);
    }
  }

  lemma SameContributions(xs: seq<Contribution>, ys: seq<Contribution>)
    requires multiset(xs) == multiset(ys)
    ensures forall c :: c in xs <==> c in ys
  {
    assert forall c :: c in xs <==> c in multiset(xs);
    assert forall c :: c in ys <==> c in multiset(ys);
  }

  /** The order in which a contribution comes last, and has the last word. */
  lemma MovedLast(cs: seq<Contribution>, x: Contribution) returns (xs: seq<Contribution>)
    requires x in cs && Contribution(x.flow, ALLOW) !in cs
    ensures multiset(xs) == multiset(cs) && EmittedAction(xs, x.flow) == Some(ToIptAction(x.action))
  {
    var i :| 0 <= i < |cs| && cs[i] == x;
    var rest := cs[..i] + cs[i + 1..];
    assert cs == cs[..i] + [x] + cs[i + 1..];
    xs := rest + [x];
    assert forall c | c in rest :: c in cs;
    LastWord(rest, x);
  }

  /** So the spelling "allow" is not enough: together with DENY the order of two rules decides. */
  lemma LowerCaseAllowDependsOnOrder(f: Flow)
    ensures !SameInEveryOrder([Contribution(f, "allow"), Contribution(f, DENY)], f)
  {
    var x, y := Contribution(f, "allow"), Contribution(f, DENY);
    assert "allow"[0] != ALLOW[0] && DENY[0] != ALLOW[0];
    assert x in [x, y] && y in [x, y] && IsAllow("allow") && !IsAllow(DENY);
    OrderIrrelevantIff([x, y], f);
  }

  // ================================================================ the verdict

  /** A packet, with the peer addresses and blocks that cover its remote address. */
  datatype Packet = Packet(established: bool, covered: iset<string>, protocol: string, port: int)

  predicate Hits(e: Entry, p: Packet) {
    match e
    case Established => p.established
    case FromPeer(peer, only, _) => peer in p.covered && (only == None || only == Some(Port(p.port, p.protocol)))
    case Everything(_) => true
  }

  predicate Accepts(e: Entry) {
    e.Established? || e.target == ACCEPT
  }

  /** First match wins; a chain that runs out does not accept here. */
  predicate Accepted(chain: seq<Entry>, p: Packet) {
    if chain == [] then false
    else if Hits(chain[0], p) then Accepts(chain[0])
    else Accepted(chain[1..], p)
  }

  /** A decided flow, read the way addRule reads it. */
  predicate Covers(f: Flow, p: Packet) {
    && f.peer in p.covered
    && (f.protocol != "" && f.port != 0 ==> LowerAll(f.protocol) == p.protocol && f.port == p.port)
  }

  function ChainOf(chain: string, order: seq<Flow>, d: Decisions): seq<Entry>
    requires forall f | f in order :: f in d
  {
    ChainFor(Emitted(chain, order, d) + [TrafficRule(chain, [], 0, "", DROP)])
  }

  /** First match over the decided flows themselves. */
  predicate FirstAllows(order: seq<Flow>, d: Decisions, p: Packet)
    requires forall f | f in order :: f in d
  {
    if order == [] then false
    else if Covers(order[0], p) then IsAllow(d[order[0]])
    else FirstAllows(order[1..], d, p)
  }

  lemma {:induction false} EntriesConcat(xs: seq<TrafficRule>, ys: seq<TrafficRule>)
    ensures Entries(xs + ys) == Entries(xs) + Entries(ys)
  {
    hide EntriesFor;
    if ys == [] {
      assert xs + ys == xs;
    } else {
      EntriesConcat(xs, ys[..|ys| - 1]);
      assert (xs + ys)[..|xs + ys| - 1] == xs + ys[..|ys| - 1];
    }
  }

  lemma EntriesOne(tr: TrafficRule)
    ensures Entries([tr]) == EntriesFor(tr)
  {
    assert [tr][..0] == [];
  }

  lemma EmittedCons(chain: string, order: seq<Flow>, d: Decisions)
    requires order != [] && forall f | f in order :: f in d
    ensures Entries(Emitted(chain, order, d)) ==
      [EntryFor(order[0].peer, RuleOf(chain, order[0], d[order[0]]))] + Entries(Emitted(chain, order[1..], d))
  {
    var first := RuleOf(chain, order[0], d[order[0]]);
    EntriesConcat([first], Emitted(chain, order[1..], d));
    EntriesOne(first);
    assert EntriesFor(first) == [EntryFor(order[0].peer, first)];
  }

  lemma {:induction false} ChainDecides(chain: string, order: seq<Flow>, d: Decisions, p: Packet)
    requires forall f | f in order :: f in d
    ensures Accepted(Entries(Emitted(chain, order, d)) + [Everything(DROP)], p) <==> FirstAllows(order, d, p)
  {
    hide LowerAll, IsAllow, Hits, Accepts, Covers, EntryFor, RuleOf;
    if order == [] {
      EmptyChain(p);
      assert Entries(Emitted(chain, order, d)) + [Everything(DROP)] == [Everything(DROP)];
    } else {
      EmittedCons(chain, order, d);
      ChainDecides(chain, order[1..], d, p);
      var rest := Entries(Emitted(chain, order[1..], d)) + [Everything(DROP)];
      var first := EntryFor(order[0].peer, RuleOf(chain, order[0], d[order[0]]));
      assert Entries(Emitted(chain, order, d)) + [Everything(DROP)] == [first] + rest;
      AcceptedCons(first, rest, p);
      FlowEntry(chain, order[0], d[order[0]], p);
    }
  }

  lemma EmptyChain(p: Packet)
    ensures !Accepted([Everything(DROP)], p)
  {
    assert ACCEPT[0] != DROP[0];
  }

  lemma AcceptedCons(e: Entry, rest: seq<Entry>, p: Packet)
    ensures Accepted([e] + rest, p) <==> if Hits(e, p) then Accepts(e) else Accepted(rest, p)
  {
    assert ([e] + rest)[1..] == rest;
  }

  /** The entry of a decided flow hits what the flow covers and accepts when the decision allows. */
  lemma FlowEntry(chain: string, f: Flow, action: string, p: Packet)
    ensures var e := EntryFor(f.peer, RuleOf(chain, f, action));
      (Hits(e, p) <==> Covers(f, p)) && (Accepts(e) <==> IsAllow(action))
  {
    hide LowerAll, IsAllow;
    assert ACCEPT[0] != DROP[0];
  }

  /** The whole chain gives a new connection the verdict of the first decided flow that covers it. */
  lemma ChainVerdict(chain: string, order: seq<Flow>, d: Decisions, p: Packet)
    requires !p.established && forall f | f in order :: f in d
    ensures Accepted(ChainOf(chain, order, d), p) <==> FirstAllows(order, d, p)
  {
    var rules, tail := Emitted(chain, order, d), TrafficRule(chain, [], 0, "", DROP);
    EntriesConcat(rules, [tail]);
    EntriesOne(tail);
    var body := Entries(rules) + [Everything(DROP)];
    assert Entries(rules + [tail]) == Entries(rules);
    assert ChainOf(chain, order, d) == [Established] + body;
    assert ([Established] + body)[1..] == body;
    ChainDecides(chain, order, d, p);
  }

  lemma {:induction false} FirstAllowsMeaning(order: seq<Flow>, d: Decisions, p: Packet)
    requires forall f | f in order :: f in d
    ensures FirstAllows(order, d, p) ==> exists f :: f in order && Covers(f, p) && IsAllow(d[f])
    ensures (exists f :: f in order && Covers(f, p) && IsAllow(d[f])) && Agree(order, d, p) ==> FirstAllows(order, d, p)
  {
    hide Covers, IsAllow;
    if order != [] {
      FirstAllowsMeaning(order[1..], d, p);
      assert forall f :: f in order <==> f == order[0] || f in order[1..];
      assert Agree(order, d, p) ==> Agree(order[1..], d, p);
    }
  }

  /** The decided flows that cover a packet all say the same. */
  predicate Agree(order: seq<Flow>, d: Decisions, p: Packet)
    requires forall f | f in order :: f in d
  {
    forall f, g | f in order && g in order && Covers(f, p) && Covers(g, p) :: IsAllow(d[f]) <==> IsAllow(d[g])
  }

  ghost predicate NoConflict(d: Decisions, p: Packet) {
    forall f, g | f in d && g in d && Covers(f, p) && Covers(g, p) :: IsAllow(d[f]) <==> IsAllow(d[g])
  }

  /** Safety: whatever the emission order, a new connection gets through only if some rule of some
      policy that allows covers it. */
  lemma AcceptedNeedsAllow(chain: string, order: seq<Flow>, cs: seq<Contribution>, p: Packet)
    requires !p.established && Enumerates(order, Fold(map[], cs).Keys)
    requires Accepted(ChainOf(chain, order, Fold(map[], cs)), p)
    ensures exists c :: c in cs && IsAllow(c.action) && Covers(c.flow, p)
  {
    hide Covers, IsAllow, Accepted, ChainOf;
    var d := Fold(map[], cs);
    ChainVerdict(chain, order, d, p);
    FirstAllowsMeaning(order, d, p);
    var f :| f in order && Covers(f, p) && IsAllow(d[f]);
    DecisionMeaning(cs, f);
    assert Contribution(f, d[f]) in cs;
  }

  /** Exactness: where covering decisions do not disagree, the chain accepts exactly when some allowing
      rule covers the packet. */
  lemma AcceptedIffAllowed(chain: string, order: seq<Flow>, cs: seq<Contribution>, p: Packet)
    requires !p.established && Canonical(cs) && Enumerates(order, Fold(map[], cs).Keys)
    requires NoConflict(Fold(map[], cs), p)
    ensures Accepted(ChainOf(chain, order, Fold(map[], cs)), p) <==>
      exists c :: c in cs && IsAllow(c.action) && Covers(c.flow, p)
  {
    hide Covers, Accepted, ChainOf, IsAllow;
    var d := Fold(map[], cs);
    if Accepted(ChainOf(chain, order, d), p) {
      AcceptedNeedsAllow(chain, order, cs, p);
    }
    if c :| c in cs && IsAllow(c.action) && Covers(c.flow, p) {
      CanonicalAllow();
      assert c.action == ALLOW;
      assert c == Contribution(c.flow, ALLOW);
      DecisionMeaning(cs, c.flow);
      assert c.flow in order && IsAllow(d[c.flow]);
      ChainVerdict(chain, order, d, p);
      FirstAllowsMeaning(order, d, p);
    }
  }

  /** The spellings that allow are those that become "allow" in small letters. */
  lemma AllowSpellings(action: string)
    ensures IsAllow(action) <==> LowerAll(action) == "allow"
    ensures IsAllow("ALLOW") && IsAllow("Allow") && !IsAllow("DENY") && !IsAllow("")
  {
    if |action| == 5 {
      assert LowerAll(action) == "allow" <==> forall i | 0 <= i < 5 :: LowerAll(action)[i] == "allow"[i];
    }
  }

  /** Traffic of established connections gets through every chain that is provisioned. */
  lemma EstablishedAccepted(rules: seq<TrafficRule>, p: Packet)
    requires p.established
    ensures Accepted(ChainFor(rules), p)
  {
    assert ChainFor(rules)[0] == Established;
  }

  /** A rule for one address, alone in its chain: a new connection gets through exactly when it is from there, its
      protocol and port are the rule's (all are if the rule leaves one of them out), and the rule accepts, as one
      without a target does. */
  lemma OneRuleChain(tr: TrafficRule, p: Packet)
    requires |tr.peers| == 1 && !p.established
    ensures Accepted(ChainFor([tr]), p) <==>
      && tr.peers[0] in p.covered && (tr.action == "" || tr.action == "ACCEPT")
      && (tr.protocol == "" || tr.port == 0 || (LowerAll(tr.protocol) == p.protocol && tr.port == p.port))
  {
    EntriesOne(tr);
    var e := EntryFor(tr.peers[0], tr);
    assert EntriesFor(tr) == [e];
    var chain := ChainFor([tr]);
    assert chain == [Established, e, Everything(DROP)];
    assert chain[1..] == [e, Everything(DROP)] && chain[1..][1..] == [Everything(DROP)];
    assert DROP[0] != ACCEPT[0];
    assert !Accepted([Everything(DROP)], p);
    assert Accepted(chain, p) == Accepted(chain[1..], p) == (Hits(e, p) && Accepts(e));
  }

  /** A rule for several addresses is a rule for each of them. */
  lemma RuleForEach(tr: TrafficRule, i: nat)
    requires i < |tr.peers|
    ensures |EntriesFor(tr)| == |tr.peers| && EntriesFor(tr)[i] == EntriesFor(tr.(peers := [tr.peers[i]]))[0]
  {
  }

  lemma CanonicalAllow()
    ensures IsAllow(ALLOW) && !IsAllow(DENY)
  {
  }

  /** The emission order matters for a packet exactly when two decisions that cover it disagree. */
  lemma OrderMattersIffConflict(chain: string, d: Decisions, p: Packet)
    requires !p.established
    ensures (forall x, y | Enumerates(x, d.Keys) && Enumerates(y, d.Keys) ::
               Accepted(ChainOf(chain, x, d), p) == Accepted(ChainOf(chain, y, d), p))
            <==> NoConflict(d, p)
  {
    hide Covers, IsAllow, Accepted, ChainOf;
    if NoConflict(d, p) {
      forall x, y | Enumerates(x, d.Keys) && Enumerates(y, d.Keys)
        ensures Accepted(ChainOf(chain, x, d), p) == Accepted(ChainOf(chain, y, d), p)
      {
        SameVerdict(chain, x, y, d, p);
      }
    } else {
      var f, g :| f in d && g in d && Covers(f, p) && Covers(g, p) && IsAllow(d[f]) != IsAllow(d[g]);
      var x := StartingWith(d.Keys, f);
      var y := StartingWith(d.Keys, g);
      ChainVerdict(chain, x, d, p);
      ChainVerdict(chain, y, d, p);
      assert Accepted(ChainOf(chain, x, d), p) != Accepted(ChainOf(chain, y, d), p);
    }
  }

  lemma SameVerdict(chain: string, x: seq<Flow>, y: seq<Flow>, d: Decisions, p: Packet)
    requires !p.established && NoConflict(d, p) && Enumerates(x, d.Keys) && Enumerates(y, d.Keys)
    ensures Accepted(ChainOf(chain, x, d), p) == Accepted(ChainOf(chain, y, d), p)
  {
    hide Covers, IsAllow, Accepted, ChainOf;
    ChainVerdict(chain, x, d, p);
    ChainVerdict(chain, y, d, p);
    FirstAllowsMeaning(x, d, p);
    FirstAllowsMeaning(y, d, p);
  }

  lemma Enumeration(s: set<Flow>) returns (order: seq<Flow>)
    ensures Enumerates(order, s)
    decreases |s|
  {
    if s == {} {
      order := [];
    } else {
      var x :| x in s;
      var rest := Enumeration(s - {x});
      order := [x] + rest;
    }
  }

  lemma StartingWith(s: set<Flow>, x: Flow) returns (order: seq<Flow>)
    requires x in s
    ensures Enumerates(order, s) && order[0] == x
  {
    var rest := Enumeration(s - {x});
    order := [x] + rest;
  }
}
