/** Closing the mux: Close waits for the reader before it closes the connection of the inject queue, and the
    reader may be waiting for room in that queue. */
module MuxClose {
  const INJECT_DEPTH := 256

  /** The reader waits for the socket, has a datagram (a STUN message or not) to hand over, or has returned. */
  datatype Reader = Waiting | Holding(isMessage: bool) | Returned

  datatype Gate = Gate(reader: Reader, queued: nat, stopping: bool, closed: bool) {
    predicate Blocked() { reader == Holding(true) && queued == INJECT_DEPTH }
  }

  /** A datagram arrives; the reader tries to hand it over; the ICE mux takes an injected packet; the socket
      reports that it is closed; Close takes a turn. */
  datatype Turn = Arrive(isMessage: bool) | HandOver | Take | Return | Shut

  predicate Enabled(g: Gate, t: Turn) {
    match t
    case Arrive(_) => g.reader.Waiting?
    case HandOver => g.reader.Holding?
    case Take => g.queued > 0
    case Return => g.reader.Waiting?
    case Shut => true
  }

  function Moved(g: Gate, t: Turn): Gate {
    match t
    case Arrive(isMessage) => g.(reader := Holding(isMessage))
    case HandOver =>
      if g.Blocked() then g
      else g.(reader := Waiting, queued := if g.reader == Holding(true) then g.queued + 1 else g.queued)
    case Take => if g.queued > 0 then g.(queued := g.queued - 1) else g
    case Return => g.(reader := Returned)
    case Shut => g.(stopping := true, closed := g.closed || g.reader == Returned)
  }

  predicate IsRun(gates: seq<Gate>, turns: seq<Turn>) {
    && |gates| == |turns| + 1
    && forall i :: 0 <= i < |turns| ==> Enabled(gates[i], turns[i]) && gates[i + 1] == Moved(gates[i], turns[i])
  }

  /** A reader that waits for room keeps Close waiting: until somebody takes a packet nothing changes but that
      Close has begun. */
  lemma {:induction false} BlockedStays(gates: seq<Gate>, turns: seq<Turn>, n: nat)
    requires IsRun(gates, turns) && n <= |turns| && gates[0].Blocked() && !gates[0].closed
    requires forall i | 0 <= i < n :: turns[i] != Take
    ensures gates[n] == gates[0].(stopping := gates[n].stopping)
  {
    if n > 0 {
      BlockedStays(gates, turns, n - 1);
      assert Enabled(gates[n - 1], turns[n - 1]);
    }
  }

  /** Close does not stop the reader: that takes the socket to be closed. */
  lemma {:induction false} CloseNeedsSocket(gates: seq<Gate>, turns: seq<Turn>, n: nat)
    requires IsRun(gates, turns) && n <= |turns| && gates[0].reader != Returned && !gates[0].closed
    requires forall i | 0 <= i < n :: turns[i] != Return
    ensures gates[n].reader != Returned && !gates[n].closed
  {
    if n > 0 {
      CloseNeedsSocket(gates, turns, n - 1);
      assert Enabled(gates[n - 1], turns[n - 1]);
    }
  }

  /** Close can return without anybody taking a packet. */
  ghost predicate CanClose(g: Gate) {
    exists gates: seq<Gate>, turns: seq<Turn> ::
      IsRun(gates, turns) && gates[0] == g && gates[|turns|].closed && Take !in turns
  }

  /** It can exactly when the reader is not waiting for room. */
  lemma CanCloseIff(g: Gate)
    requires !g.closed
    ensures CanClose(g) <==> !g.Blocked()
  {
    if CanClose(g) && g.Blocked() {
      var gates: seq<Gate>, turns: seq<Turn> :|
        IsRun(gates, turns) && gates[0] == g && gates[|turns|].closed && Take !in turns;
      assert forall i | 0 <= i < |turns| :: turns[i] in turns;
      BlockedStays(gates, turns, |turns|);
      assert false;
    }
    if !g.Blocked() {
      var turns := match g.reader
        case Waiting => [Return, Shut]
        case Holding(_) => [HandOver, Return, Shut]
        case Returned => [Shut];
      var gates := match g.reader
        case Waiting => [g, Moved(g, Return), Moved(Moved(g, Return), Shut)]
        case Holding(_) =>
          [g, Moved(g, HandOver), Moved(Moved(g, HandOver), Return), Moved(Moved(Moved(g, HandOver), Return), Shut)]
        case Returned => [g, Moved(g, Shut)];
      assert IsRun(gates, turns) && gates[0] == g && gates[|turns|].closed && Take !in turns;
    }
  }
}
