/** The relay's session table: two maps, kept equal to what the history of operations says. */
module Sessions {
  import opened Prelude

  type Id = nat

  /** A session's stream, TCP or the control stream of a QUIC connection. */
  datatype Session = Session(id: Id, stream: int, quic: bool)

  datatype Op =
    | Registered(id: Id, session: Session)
    | RegisteredQuic(id: Id, ctrl: int, conn: int)
    | Unregistered(id: Id)

  datatype Target = ToQuic(conn: int) | ToStream(stream: int) | NotFound

  // ---------------------------------------------------------------- the history log

  predicate IsRegistration(op: Op, id: Id) { !op.Unregistered? && op.id == id }

  predicate NotUnregisteredAfter(log: seq<Op>, i: int, id: Id) {
    forall j :: 0 <= i < j < |log| ==> log[j] != Unregistered(id)
  }

  /** The last registration of an id, with no Unregister of the id since. */
  predicate LatestAt(log: seq<Op>, i: int, id: Id) {
    && 0 <= i < |log| && IsRegistration(log[i], id) && NotUnregisteredAfter(log, i, id)
    && forall j :: i < j < |log| ==> !IsRegistration(log[j], id)
  }

  /** The last QUIC registration of an id, with no Unregister of the id since. */
  predicate LatestQuicAt(log: seq<Op>, i: int, id: Id) {
    && 0 <= i < |log| && log[i].RegisteredQuic? && log[i].id == id && NotUnregisteredAfter(log, i, id)
    && forall j :: i < j < |log| ==> !(log[j].RegisteredQuic? && log[j].id == id)
  }

  function SessionOf(op: Op): Session
    requires !op.Unregistered?
  {
    if op.Registered? then op.session else Session(op.id, op.ctrl, true)
  }

  /** Where a frame for an id goes, told by the log alone: its latest QUIC connection since its last
      Unregister, else its latest session since then, else nowhere. */
  ghost predicate RelaysTo(log: seq<Op>, id: Id, t: Target) {
    match t
    case ToQuic(c) => exists i :: LatestQuicAt(log, i, id) && log[i].conn == c
    case ToStream(s) =>
      (forall i :: !LatestQuicAt(log, i, id)) && exists i :: LatestAt(log, i, id) && SessionOf(log[i]).stream == s
    case NotFound => forall i :: 0 <= i < |log| && IsRegistration(log[i], id) ==> !NotUnregisteredAfter(log, i, id)
  }

  /** The ids registered since their last Unregister. */
  ghost predicate Live(log: seq<Op>, id: Id) {
    exists i :: 0 <= i < |log| && IsRegistration(log[i], id) && NotUnregisteredAfter(log, i, id)
  }

  // ---------------------------------------------------------------- the two maps

  datatype Table = Table(sessions: map<Id, Session>, quicConns: map<Id, int>)

  ghost predicate SessionsMatch(log: seq<Op>, sessions: map<Id, Session>) {
    && (forall id | id in sessions :: exists i :: LatestAt(log, i, id) && SessionOf(log[i]) == sessions[id])
    && (forall id, i | LatestAt(log, i, id) :: id in sessions)
  }

  ghost predicate QuicMatches(log: seq<Op>, quicConns: map<Id, int>) {
    && (forall id | id in quicConns :: exists i :: LatestQuicAt(log, i, id) && log[i].conn == quicConns[id])
    && (forall id, i | LatestQuicAt(log, i, id) :: id in quicConns)
  }

  /** The table refines the log. */
  ghost predicate Refines(log: seq<Op>, t: Table) {
    SessionsMatch(log, t.sessions) && QuicMatches(log, t.quicConns) && t.quicConns.Keys <= t.sessions.Keys
  }

  lemma LatestOfOthers(log: seq<Op>, op: Op, i: int, id: Id)
    requires op.id != id
    ensures LatestAt(log + [op], i, id) <==> LatestAt(log, i, id)
    ensures LatestQuicAt(log + [op], i, id) <==> LatestQuicAt(log, i, id)
  {
    var after := log + [op];
    assert after[|log|] == op;
    assert forall j | 0 <= j < |log| :: after[j] == log[j];
  }

  lemma LatestIsLast(log: seq<Op>, op: Op, i: int)
    ensures !op.Unregistered? ==> (LatestAt(log + [op], i, op.id) <==> i == |log|)
    ensures op.RegisteredQuic? ==> (LatestQuicAt(log + [op], i, op.id) <==> i == |log|)
    ensures op.Registered? ==> (LatestQuicAt(log + [op], i, op.id) <==> LatestQuicAt(log, i, op.id))
    ensures op.Unregistered? ==> !LatestAt(log + [op], i, op.id) && !LatestQuicAt(log + [op], i, op.id)
  {
    var after := log + [op];
    assert after[|log|] == op;
    assert forall j | 0 <= j < |log| :: after[j] == log[j];
    if op.Unregistered? && 0 <= i < |log| {
      assert !NotUnregisteredAfter(after, i, op.id);
    }
  }

  /** The same place of the log seen before and after one more operation. */
  lemma Extend(log: seq<Op>, op: Op)
    ensures forall i, id | id != op.id :: LatestAt(log + [op], i, id) <==> LatestAt(log, i, id)
    ensures forall i, id | id != op.id :: LatestQuicAt(log + [op], i, id) <==> LatestQuicAt(log, i, id)
    ensures forall i, id | LatestAt(log, i, id) || LatestQuicAt(log, i, id) :: (log + [op])[i] == log[i]
  {
    forall i, id: Id | id != op.id
      ensures LatestAt(log + [op], i, id) <==> LatestAt(log, i, id)
      ensures LatestQuicAt(log + [op], i, id) <==> LatestQuicAt(log, i, id)
    {
      LatestOfOthers(log, op, i, id);
    }
  }

  lemma SessionsAfter(log: seq<Op>, op: Op, sessions: map<Id, Session>, after: map<Id, Session>)
    requires SessionsMatch(log, sessions)
    requires forall id | id != op.id :: (id in after <==> id in sessions) && (id in after ==> after[id] == sessions[id])
    requires if op.Unregistered? then op.id !in after else op.id in after && after[op.id] == SessionOf(op)
    ensures SessionsMatch(log + [op], after)
  {
    hide NotUnregisteredAfter;
    var grown := log + [op];
    Extend(log, op);
    forall i { LatestIsLast(log, op, i); }
    assert grown[|log|] == op;
    forall id | id in after ensures exists i :: LatestAt(grown, i, id) && SessionOf(grown[i]) == after[id] {
      if id == op.id {
        assert LatestAt(grown, |log|, id);
      } else {
        var i :| LatestAt(log, i, id) && SessionOf(log[i]) == sessions[id];
        assert LatestAt(grown, i, id);
      }
    }
  }

  lemma QuicAfter(log: seq<Op>, op: Op, quic: map<Id, int>, after: map<Id, int>)
    requires QuicMatches(log, quic)
    requires forall id | id != op.id || op.Registered? ::
      (id in after <==> id in quic) && (id in after ==> after[id] == quic[id])
    requires op.Unregistered? ==> op.id !in after
    requires op.RegisteredQuic? ==> op.id in after && after[op.id] == op.conn
    ensures QuicMatches(log + [op], after)
  {
    hide NotUnregisteredAfter;
    var grown := log + [op];
    Extend(log, op);
    forall i { LatestIsLast(log, op, i); }
    assert grown[|log|] == op;
    forall id | id in after ensures exists i :: LatestQuicAt(grown, i, id) && grown[i].conn == after[id] {
      if id == op.id && op.RegisteredQuic? {
        assert LatestQuicAt(grown, |log|, id);
      } else {
        var i :| LatestQuicAt(log, i, id) && log[i].conn == quic[id];
        assert LatestQuicAt(grown, i, id);
      }
    }
  }

  // ---------------------------------------------------------------- the manager

  class SessionManager {
    var sessions: map<Id, Session>
    var quicConns: map<Id, int>
    ghost var log: seq<Op>

    ghost predicate Valid() reads this { Refines(log, Table(sessions, quicConns)) }

    constructor ()
      ensures Valid() && log == []
    {
      sessions, quicConns, log := map[], map[], [];
    }

    method Register(id: Id, s: Session)
      requires Valid()
      modifies this
      ensures Valid() && log == old(log) + [Registered(id, s)]
    {
      hide LatestAt, LatestQuicAt, SessionsMatch, QuicMatches;
      SessionsAfter(log, Registered(id, s), sessions, sessions[id := s]);
      QuicAfter(log, Registered(id, s), quicConns, quicConns);
      sessions := sessions[id := s];
      log := log + [Registered(id, s)];
    }

    method Unregister(id: Id)
      requires Valid()
      modifies this
      ensures Valid() && log == old(log) + [Unregistered(id)]
    {
      hide LatestAt, LatestQuicAt, SessionsMatch, QuicMatches;
      SessionsAfter(log, Unregistered(id), sessions, sessions - {id});
      QuicAfter(log, Unregistered(id), quicConns, quicConns - {id});
      sessions := sessions - {id};
      quicConns := quicConns - {id};
      log := log + [Unregistered(id)];
    }

    method RegisterQUIC(id: Id, ctrl: int, conn: int)
      requires Valid()
      modifies this
      ensures Valid() && log == old(log) + [RegisteredQuic(id, ctrl, conn)]
    {
      hide LatestAt, LatestQuicAt, SessionsMatch, QuicMatches;
      var s := Session(id, ctrl, true);
      SessionsAfter(log, RegisteredQuic(id, ctrl, conn), sessions, sessions[id := s]);
      QuicAfter(log, RegisteredQuic(id, ctrl, conn), quicConns, quicConns[id := conn]);
      sessions := sessions[id := s];
      quicConns := quicConns[id := conn];
      log := log + [RegisteredQuic(id, ctrl, conn)];
    }

    method Get(id: Id) returns (s: Option<Session>)
      requires Valid()
      ensures s.Some? <==> Live(log, id)
      ensures s.Some? ==> exists i :: LatestAt(log, i, id) && SessionOf(log[i]) == s.value
    {
      LiveHasLatest(log, id);
      s := if id in sessions then Some(sessions[id]) else None;
    }

    /** Where Relay sends a frame. */
    method Relay(toId: Id) returns (t: Target)
      requires Valid()
      ensures RelaysTo(log, toId, t)
    {
      if toId in quicConns {
        t := ToQuic(quicConns[toId]);
      } else if toId in sessions {
        t := ToStream(sessions[toId].stream);
      } else {
        t := NotFound;
        LiveHasLatest(log, toId);
      }
    }

    method ConnectedPeers() returns (n: nat)
      requires Valid()
      ensures exists ids: set<Id> :: n == |ids| && forall id :: id in ids <==> Live(log, id)
    {
      n := |sessions|;
      assert |sessions| == |sessions.Keys|;
      forall id ensures id in sessions.Keys <==> Live(log, id) {
        LiveHasLatest(log, id);
      }
    }
  }

  /** An id that is live has a latest registration, and the other way around. */
  lemma LiveHasLatest(log: seq<Op>, id: Id)
    ensures Live(log, id) <==> exists i :: LatestAt(log, i, id)
  {
    if Live(log, id) {
      var i :| 0 <= i < |log| && IsRegistration(log[i], id) && NotUnregisteredAfter(log, i, id);
      var k := LastRegistration(log, id, i);
    }
  }

  lemma LastRegistration(log: seq<Op>, id: Id, i: int) returns (k: int)
    requires 0 <= i < |log| && IsRegistration(log[i], id) && NotUnregisteredAfter(log, i, id)
    ensures LatestAt(log, k, id)
  {
    k := i;
    for j := i + 1 to |log|
      invariant i <= k < j && IsRegistration(log[k], id)
      invariant forall x :: k < x < j ==> !IsRegistration(log[x], id)
    {
      if IsRegistration(log[j], id) {
        k := j;
      }
    }
  }

  /** The log determines the target. */
  lemma OneTarget(log: seq<Op>, id: Id, a: Target, b: Target)
    requires RelaysTo(log, id, a) && RelaysTo(log, id, b)
    ensures a == b
  {
    LiveHasLatest(log, id);
    forall i, j | LatestQuicAt(log, i, id) && LatestQuicAt(log, j, id) ensures i == j { }
    forall i, j | LatestAt(log, i, id) && LatestAt(log, j, id) ensures i == j { }
    forall i | LatestQuicAt(log, i, id) ensures Live(log, id) { }
  }

  /** A TCP session does not take over from a QUIC connection that was not unregistered. */
  lemma QuicOutlivesTcpSession(log: seq<Op>, id: Id, s: Session, c: int)
    ensures RelaysTo(log, id, ToQuic(c)) <==> RelaysTo(log + [Registered(id, s)], id, ToQuic(c))
  {
    var after := log + [Registered(id, s)];
    forall i ensures LatestQuicAt(after, i, id) <==> LatestQuicAt(log, i, id) {
      LatestIsLast(log, Registered(id, s), i);
    }
    forall i | LatestQuicAt(log, i, id) ensures after[i] == log[i] { }
  }
}
