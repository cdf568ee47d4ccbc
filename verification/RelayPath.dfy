/** From one client through the relay to another: which frames arrive, and at whose session. */
module RelayPath {
  import opened Prelude
  import opened Lrp
  import opened LrpServer
  import opened LrpClient
  import opened Sessions

  const ID_SPACE := 0x1_0000_0000

  // ---------------------------------------------------------------- client to server

  datatype Message = Message(toId: nat, cmd: Byte, data: Bytes)

  /** Messages the header can describe. */
  predicate Sendable(m: Message) {
    if CarriesPayload(m.cmd) then |m.data| < ID_SPACE else m.data == []
  }

  /** The frames made for the messages, with whatever sequence numbers. */
  ghost predicate FramesOf(messages: seq<Message>, frames: seq<Frame>) {
    |frames| == |messages| && forall i :: 0 <= i < |frames| ==> MadeFor(messages[i], frames[i])
  }

  ghost predicate MadeFor(m: Message, f: Frame) {
    exists c: U32 :: f == FrameFor(c, m.toId, m.cmd, m.data)
  }

  lemma FramesAreWellFormed(messages: seq<Message>, frames: seq<Frame>)
    requires FramesOf(messages, frames) && forall m | m in messages :: Sendable(m)
    ensures forall f | f in frames :: WellFormed(f)
  {
    forall i | 0 <= i < |frames| ensures WellFormed(frames[i]) {
      var m := messages[i];
      var c: U32 :| frames[i] == FrameFor(c, m.toId, m.cmd, m.data);
      assert Sendable(m);
      FrameIsWellFormed(c, m.toId, m.cmd, m.data);
    }
  }

  lemma {:induction false} RelaysPrefix(frames: seq<Frame>, n: nat)
    requires n <= |frames|
    ensures Relays(frames[..n]) <= Relays(frames)
  {
    hide RelayOf;
    if n > 0 {
      RelaysPrefix(frames[1..], n - 1);
      assert frames[..n][1..] == frames[1..][..n - 1];
    }
  }

  /** Every state of the wire the client can produce registers the client's id and relays, in order, the
      frames of a prefix of the accepted messages. */
  lemma WireIsRelayed(registration: Header, messages: seq<Message>, frames: seq<Frame>, wire: Bytes)
    requires registration.cmd == REGISTER && HEADER_SIZE <= |wire| && wire <= Encode(registration) + Stream(frames)
    requires FramesOf(messages, frames) && forall m | m in messages :: Sendable(m)
    ensures Decode(wire) == registration
    ensures Relayed(wire[HEADER_SIZE..]) == Relays(Complete(frames, |wire| - HEADER_SIZE))
    ensures Relayed(wire[HEADER_SIZE..]) <= Relays(frames)
  {
    hide Encode, Decode, Sendable, WellFormed, Relayed, Relays;
    FramesAreWellFormed(messages, frames);
    SessionRelaysCompleteFrames(registration, frames, wire);
    CompleteIsLongest(frames, |wire| - HEADER_SIZE);
    var n := |Complete(frames, |wire| - HEADER_SIZE)|;
    RelaysPrefix(frames, n);
  }

  /** A relayed frame is some accepted message's own, addressed to its target's id cut to 32 bits. */
  lemma {:induction false} RelayOfMessage(messages: seq<Message>, frames: seq<Frame>, r: Relay) returns (i: nat)
    requires FramesOf(messages, frames) && r in Relays(frames)
    ensures i < |messages| && r == Relay(messages[i].toId % ID_SPACE, OnWire(frames[i]))
    ensures CarriesPayload(messages[i].cmd)
    decreases |frames|
  {
    hide OnWire;
    assert MadeFor(messages[0], frames[0]);
    if CarriesPayload(frames[0].header.cmd) && r == Relay(frames[0].header.toId, OnWire(frames[0])) {
      i := 0;
    } else {
      assert FramesOf(messages[1..], frames[1..]);
      i := RelayOfMessage(messages[1..], frames[1..], r);
      i := i + 1;
    }
  }

  // ---------------------------------------------------------------- server to client

  /** One connection of a client: the client's 64-bit id is cut to 32 bits on the wire. */
  datatype Connection = Connection(id: int, client: nat, quic: bool)

  function Low(client: nat): Id { client % ID_SPACE }

  /** A connection registering, and the handler of a connection returning. */
  datatype ConnOp = Open(c: Connection) | End(c: Connection)

  /** What the handlers call: the deferred Unregister names the client's id, not the connection. */
  function OpOf(op: ConnOp): Op {
    var id := Low(op.c.client);
    match op
    case Open(c) => if c.quic then RegisteredQuic(id, c.id, c.id) else Registered(id, Session(id, c.id, false))
    case End(_) => Unregistered(id)
  }

  function LogOf(ops: seq<ConnOp>): seq<Op> { seq(|ops|, i requires 0 <= i < |ops| => OpOf(ops[i])) }

  function TargetOf(c: Connection): Target { if c.quic then ToQuic(c.id) else ToStream(c.id) }

  /** Every connection opens once, and ends at most once and only after it opened. */
  ghost predicate IsHistory(ops: seq<ConnOp>) {
    && (forall i, j :: 0 <= i < j < |ops| && ops[i].Open? && ops[j].Open? ==> ops[i].c.id != ops[j].c.id)
    && (forall i, j :: 0 <= i < j < |ops| && ops[i].End? && ops[j].End? ==> ops[i].c != ops[j].c)
    && (forall j :: 0 <= j < |ops| && ops[j].End? ==> exists i :: 0 <= i < j && ops[i] == Open(ops[j].c))
  }

  predicate IsOpen(ops: seq<ConnOp>, i: int) {
    0 <= i < |ops| && ops[i].Open? && forall j :: i < j < |ops| ==> ops[j] != End(ops[i].c)
  }

  /** The client's latest open connection: every later one has ended. */
  predicate LatestOpen(ops: seq<ConnOp>, i: int, client: nat) {
    && IsOpen(ops, i) && ops[i].c.client == client
    && forall j :: i < j < |ops| && ops[j].c.client == client ==> !IsOpen(ops, j)
  }

  predicate Shares(ops: seq<ConnOp>, j: int, id: Id)
    requires 0 <= j < |ops|
  {
    Low(ops[j].c.client) == id
  }

  /** Since it opened, no connection with the same low 32 bits has ended, and none has opened that takes over:
      any takes over from TCP, and a QUIC connection from QUIC. */
  predicate Undisturbed(ops: seq<ConnOp>, i: int)
    requires 0 <= i < |ops|
  {
    forall j :: i < j < |ops| && Shares(ops, j, Low(ops[i].c.client)) ==>
      ops[j].Open? && ops[i].c.quic && !ops[j].c.quic
  }

  /** A QUIC connection with the same low 32 bits opened before, and none of them has ended in between. */
  predicate Shadowed(ops: seq<ConnOp>, i: int)
    requires 0 <= i < |ops|
  {
    exists j :: 0 <= j < i && ops[j].Open? && ops[j].c.quic && Shares(ops, j, Low(ops[i].c.client)) && NoEnd(ops, j, i)
  }

  predicate NoEnd(ops: seq<ConnOp>, j: int, i: int)
    requires 0 <= j < i < |ops|
  {
    forall x :: j < x < i && Shares(ops, x, Low(ops[i].c.client)) ==> ops[x].Open?
  }

  /** What a caller can see of the history before the relay: frames go to this connection. */
  predicate Kept(ops: seq<ConnOp>, i: int)
    requires 0 <= i < |ops|
  {
    Undisturbed(ops, i) && (ops[i].c.quic || !Shadowed(ops, i))
  }

  lemma LogAt(ops: seq<ConnOp>)
    ensures |LogOf(ops)| == |ops|
    ensures forall j | 0 <= j < |ops| :: LogOf(ops)[j] == OpOf(ops[j]) && (LogOf(ops)[j].id == Low(ops[j].c.client))
  {
  }

  lemma LatestTcp(ops: seq<ConnOp>, i: int)
    requires 0 <= i < |ops| && ops[i].Open? && !ops[i].c.quic
    ensures LatestAt(LogOf(ops), i, Low(ops[i].c.client)) <==> Undisturbed(ops, i)
  {
    hide Low;
    LogAt(ops);
    var log, id := LogOf(ops), Low(ops[i].c.client);
    hide LogOf;
    if LatestAt(log, i, id) {
      forall j | i < j < |ops| ensures !Shares(ops, j, id) {
        assert log[j] != Unregistered(id) && !IsRegistration(log[j], id);
      }
    }
    if Undisturbed(ops, i) {
      forall j | i < j < |ops| ensures log[j].id != id { assert !Shares(ops, j, id); }
      assert IsRegistration(log[i], id);
    }
  }

  lemma LatestQuic(ops: seq<ConnOp>, i: int)
    requires 0 <= i < |ops| && ops[i].Open? && ops[i].c.quic
    ensures LatestQuicAt(LogOf(ops), i, Low(ops[i].c.client)) <==> Undisturbed(ops, i)
  {
    hide Low;
    LogAt(ops);
    var log, id := LogOf(ops), Low(ops[i].c.client);
    hide LogOf;
    if LatestQuicAt(log, i, id) {
      forall j | i < j < |ops| && Shares(ops, j, id) ensures ops[j].Open? && !ops[j].c.quic {
        assert log[j] != Unregistered(id);
      }
    }
    if Undisturbed(ops, i) {
      forall j | i < j < |ops| ensures log[j] != Unregistered(id) && !(log[j].RegisteredQuic? && log[j].id == id) {
        assert Shares(ops, j, id) ==> ops[j].Open? && !ops[j].c.quic;
      }
    }
  }

  /** Behind an undisturbed TCP connection, a QUIC connection is still registered exactly when one shadows it. */
  lemma ShadowIsQuic(ops: seq<ConnOp>, i: int)
    requires 0 <= i < |ops| && ops[i].Open? && !ops[i].c.quic && Undisturbed(ops, i)
    ensures Shadowed(ops, i) <==> exists j :: LatestQuicAt(LogOf(ops), j, Low(ops[i].c.client))
  {
    hide Low;
    LogAt(ops);
    var log, id := LogOf(ops), Low(ops[i].c.client);
    hide LogOf;
    forall j | i < j < |ops| ensures log[j].id != id { assert !Shares(ops, j, id); }
    if j :| LatestQuicAt(log, j, id) {
      assert j < i && ops[j].c.quic && Shares(ops, j, id);
      forall x | j < x < i && Shares(ops, x, id) ensures ops[x].Open? {
        assert log[x] != Unregistered(id);
      }
      assert NoEnd(ops, j, i);
    }
    if Shadowed(ops, i) {
      var j :| 0 <= j < i && ops[j].Open? && ops[j].c.quic && Shares(ops, j, id) && NoEnd(ops, j, i);
      forall x | j < x < |ops| ensures log[x] != Unregistered(id) {
        assert x < i && Shares(ops, x, id) ==> ops[x].Open?;
      }
      var k := LastQuic(log, id, j);
    }
  }

  lemma LastQuic(log: seq<Op>, id: Id, j: int) returns (k: int)
    requires 0 <= j < |log| && log[j].RegisteredQuic? && log[j].id == id && NotUnregisteredAfter(log, j, id)
    ensures LatestQuicAt(log, k, id)
  {
    k := j;
    for x := j + 1 to |log|
      invariant j <= k < x && log[k].RegisteredQuic? && log[k].id == id
      invariant forall y :: k < y < x ==> !(log[y].RegisteredQuic? && log[y].id == id)
    {
      if log[x].RegisteredQuic? && log[x].id == id {
        k := x;
      }
    }
  }

  /** A target determines the connection it belongs to, for connections open once. */
  lemma TargetIsRegistered(ops: seq<ConnOp>, i: int)
    requires IsHistory(ops) && 0 <= i < |ops| && ops[i].Open?
    ensures RelaysTo(LogOf(ops), Low(ops[i].c.client), TargetOf(ops[i].c)) <==>
      var (log, id) := (LogOf(ops), Low(ops[i].c.client));
      if ops[i].c.quic then LatestQuicAt(log, i, id)
      else LatestAt(log, i, id) && forall j :: !LatestQuicAt(log, j, id)
  {
    hide Low, LatestAt, LatestQuicAt;
    LogAt(ops);
    var log, id := LogOf(ops), Low(ops[i].c.client);
    hide LogOf;
    forall k | LatestAt(log, k, id) ensures 0 <= k < |ops| && ops[k].Open? && SessionOf(log[k]).stream == ops[k].c.id {
      LatestIsOpen(ops, k, id);
    }
    forall k | LatestQuicAt(log, k, id)
      ensures 0 <= k < |ops| && ops[k].Open? && log[k].RegisteredQuic? && log[k].conn == ops[k].c.id {
      LatestIsOpen(ops, k, id);
    }
  }

  lemma LatestIsOpen(ops: seq<ConnOp>, k: int, id: Id)
    requires LatestAt(LogOf(ops), k, id) || LatestQuicAt(LogOf(ops), k, id)
    ensures IsOpen(ops, k) && Shares(ops, k, id)
    ensures !LogOf(ops)[k].Unregistered? && SessionOf(LogOf(ops)[k]).stream == ops[k].c.id
    ensures LatestQuicAt(LogOf(ops), k, id) ==>
      ops[k].c.quic && LogOf(ops)[k].RegisteredQuic? && LogOf(ops)[k].conn == ops[k].c.id
  {
    hide Low;
    LogAt(ops);
    forall j | k < j < |ops| ensures ops[j] != End(ops[k].c) {
      assert LogOf(ops)[j] != Unregistered(id);
    }
  }

  /** For every history of connections: frames for a client go to its latest open connection exactly when,
      since that opened, no connection with the same low 32 bits has ended or taken over, and no earlier QUIC
      connection is still registered. Among TCP connections that is: none has opened or ended. */
  lemma ReachesLatestIff(ops: seq<ConnOp>, client: nat, i: int)
    requires IsHistory(ops) && LatestOpen(ops, i, client)
    ensures RelaysTo(LogOf(ops), Low(client), TargetOf(ops[i].c)) <==> Kept(ops, i)
    ensures (forall j | 0 <= j < |ops| :: !ops[j].c.quic) ==>
      (RelaysTo(LogOf(ops), Low(client), TargetOf(ops[i].c)) <==>
        forall j | i < j < |ops| :: !Shares(ops, j, Low(client)))
  {
    hide Low, LatestAt, LatestQuicAt, RelaysTo, LogOf, IsHistory;
    TargetIsRegistered(ops, i);
    if ops[i].c.quic {
      LatestQuic(ops, i);
    } else {
      LatestTcp(ops, i);
      if Undisturbed(ops, i) {
        ShadowIsQuic(ops, i);
      }
    }
  }

  /** Whatever connection a frame goes to is open and has the id's low 32 bits, and a frame is reported as not
      found exactly when the last operation with these bits, if any, was an end. */
  lemma RelaysToOpen(ops: seq<ConnOp>, client: nat, t: Target)
    requires RelaysTo(LogOf(ops), Low(client), t)
    ensures t != NotFound ==> exists i :: IsOpen(ops, i) && Shares(ops, i, Low(client)) && TargetOf(ops[i].c) == t
    ensures t == NotFound <==>
      forall i | 0 <= i < |ops| && ops[i].Open? && Shares(ops, i, Low(client)) :: EndedSince(ops, i)
  {
    hide Low;
    LogAt(ops);
    var log, id := LogOf(ops), Low(client);
    hide LogOf;
    forall k | LatestAt(log, k, id) || LatestQuicAt(log, k, id) ensures IsOpen(ops, k) && Shares(ops, k, id) {
      LatestIsOpen(ops, k, id);
    }
    match t
    case ToQuic(c) =>
      var k :| LatestQuicAt(log, k, id) && log[k].conn == c;
      LatestIsOpen(ops, k, id);
      assert TargetOf(ops[k].c) == t;
      NotEnded(ops, k, id);
    case ToStream(s) =>
      var k :| LatestAt(log, k, id) && SessionOf(log[k]).stream == s;
      LatestIsOpen(ops, k, id);
      assert ops[k].c.quic ==> LatestQuicAt(log, k, id);
      assert TargetOf(ops[k].c) == t;
      NotEnded(ops, k, id);
    case NotFound =>
      forall i | 0 <= i < |ops| && ops[i].Open? && Shares(ops, i, id) ensures EndedSince(ops, i) {
        assert IsRegistration(log[i], id);
        var j :| i < j < |log| && log[j] == Unregistered(id);
        assert ops[j].End? && Shares(ops, j, id);
      }
  }

  /** A connection with the same low 32 bits has ended since. */
  predicate EndedSince(ops: seq<ConnOp>, i: int)
    requires 0 <= i < |ops|
  {
    exists j :: i < j < |ops| && ops[j].End? && Shares(ops, j, Low(ops[i].c.client))
  }

  lemma NotEnded(ops: seq<ConnOp>, k: int, id: Id)
    requires LatestAt(LogOf(ops), k, id) || LatestQuicAt(LogOf(ops), k, id)
    ensures 0 <= k < |ops| && ops[k].Open? && Shares(ops, k, id) && !EndedSince(ops, k)
  {
    LatestIsOpen(ops, k, id);
    hide Low;
    LogAt(ops);
    forall j | k < j < |ops| && ops[j].End? ensures !Shares(ops, j, id) {
      assert LogOf(ops)[j] != Unregistered(id);
    }
  }

  /** A client that reconnects: when the handler of its first connection returns after that, the client is not
      found, though its second connection is open. */
  lemma ReconnectIsLost(first: Connection, second: Connection)
    requires first.client == second.client && first.id != second.id
    ensures var ops := [Open(first), Open(second), End(first)];
      && IsHistory(ops) && LatestOpen(ops, 1, second.client)
      && RelaysTo(LogOf(ops), Low(second.client), NotFound)
  {
    var ops := [Open(first), Open(second), End(first)];
    assert ops[0] == Open(first) && ops[1] == Open(second) && ops[2] == End(first);
    LogAt(ops);
    var log, id := LogOf(ops), Low(second.client);
    assert log[2] == Unregistered(id);
    forall i | 0 <= i < |log| && IsRegistration(log[i], id) ensures !NotUnregisteredAfter(log, i, id) {
      assert i < 2;
    }
  }

  /** Two ids with the same low 32 bits share one session: the later client gets the other's frames. */
  lemma CollidingIdsShareSession(client: nat, mine: int, other: int)
    requires mine != other
    ensures var ops := [Open(Connection(mine, client, false)), Open(Connection(other, client + ID_SPACE, false))];
      && IsHistory(ops) && LatestOpen(ops, 0, client)
      && RelaysTo(LogOf(ops), Low(client), ToStream(other)) && !RelaysTo(LogOf(ops), Low(client), ToStream(mine))
  {
    var ops := [Open(Connection(mine, client, false)), Open(Connection(other, client + ID_SPACE, false))];
    assert ops[0].c.id == mine && ops[1].c.id == other;
    assert Low(client + ID_SPACE) == Low(client);
    assert Shares(ops, 1, Low(client));
    ReachesLatestIff(ops, client, 0);
    ReachesLatestIff(ops, client + ID_SPACE, 1);
  }

  // ---------------------------------------------------------------- the whole way

  /** A relayed frame is the message's own, and where it goes is told by the history of connections. */
  ghost predicate Delivers(m: Message, f: Frame, r: Relay, ops: seq<ConnOp>) {
    && CarriesPayload(m.cmd) && r.frame == OnWire(f)
    && (forall k | LatestOpen(ops, k, m.toId) :: RelaysTo(LogOf(ops), r.toId, TargetOf(ops[k].c)) <==> Kept(ops, k))
    && (forall t | RelaysTo(LogOf(ops), r.toId, t) && t != NotFound :: GoesToOpen(ops, m.toId, t))
  }

  ghost predicate GoesToOpen(ops: seq<ConnOp>, client: nat, t: Target) {
    exists i :: IsOpen(ops, i) && Shares(ops, i, Low(client)) && TargetOf(ops[i].c) == t
  }

  /** The whole way: a relayed frame is that of an accepted message, unchanged; it goes to the latest open
      connection of the client the message is for exactly when that connection is kept, and never to a
      connection that is closed or has other low bits. */
  lemma MessageReachesClient(registration: Header, messages: seq<Message>, frames: seq<Frame>, wire: Bytes,
                             ops: seq<ConnOp>, r: Relay)
    requires registration.cmd == REGISTER && HEADER_SIZE <= |wire| && wire <= Encode(registration) + Stream(frames)
    requires FramesOf(messages, frames) && forall m | m in messages :: Sendable(m)
    requires IsHistory(ops) && r in Relayed(wire[HEADER_SIZE..])
    ensures exists i :: 0 <= i < |messages| && Delivers(messages[i], frames[i], r, ops)
  {
    hide Encode, Decode, Sendable, Relayed, RelaysTo, IsHistory, LatestOpen, Kept, LogOf;
    WireIsRelayed(registration, messages, frames, wire);
    assert r in Relays(frames);
    var i := RelayOfMessage(messages, frames, r);
    var client := messages[i].toId;
    forall k | LatestOpen(ops, k, client)
      ensures 0 <= k < |ops| && (RelaysTo(LogOf(ops), r.toId, TargetOf(ops[k].c)) <==> Kept(ops, k)) {
      LatestInRange(ops, k, client);
      ReachesLatestIff(ops, client, k);
    }
    forall t | RelaysTo(LogOf(ops), r.toId, t) && t != NotFound ensures GoesToOpen(ops, client, t) {
      RelaysToOpen(ops, client, t);
    }
    assert Delivers(messages[i], frames[i], r, ops);
  }

  lemma LatestInRange(ops: seq<ConnOp>, k: int, client: nat)
    requires LatestOpen(ops, k, client)
    ensures 0 <= k < |ops|
  {
  }
}
