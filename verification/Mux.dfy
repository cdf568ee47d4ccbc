/** The sole reader of the shared UDP socket: STUN datagrams go to the ICE mux, all others to WireGuard.
    Datagrams are read into one buffer that every turn reuses. */
module Mux {
  import opened Prelude
  import opened MuxClose

  type Byte = x: int | 0 <= x < 0x100

  const BUFFER_SIZE := 2048
  const COUNTER_SPACE := 0x1_0000_0000_0000_0000

  datatype Packet = Packet(data: seq<Byte>, addr: int)

  /** A queued packet: its bytes are in an array of the heap. */
  datatype Queued = Queued(data: array<Byte>, addr: int)

  /** What became of a datagram. Lost means that its connection was closed before there was room in the inject
      queue; Ignored means that there was no pass-through channel. */
  datatype Outcome = Injected | Forwarded | Dropped | Lost | Ignored

  /** A 64-bit counter, one further. */
  function Bumped(n: nat): nat { (n + 1) % COUNTER_SPACE }

  function Counted(n: nat, result: Outcome): nat { if result == Dropped then Bumped(n) else n }

  /** A queue after a packet got an outcome, for the queue of outcome o. */
  function Put(queue: seq<Packet>, p: Packet, result: Outcome, o: Outcome): seq<Packet> {
    if result == o then queue + [p] else queue
  }

  // ---------------------------------------------------------------- histories

  function Pick(arrivals: seq<Packet>, outcomes: seq<Outcome>, o: Outcome): seq<Packet>
    requires |arrivals| == |outcomes|
  {
    if arrivals == [] then []
    else
      var n := |arrivals| - 1;
      Pick(arrivals[..n], outcomes[..n], o) + if outcomes[n] == o then [arrivals[n]] else []
  }

  lemma PickNext(arrivals: seq<Packet>, outcomes: seq<Outcome>, p: Packet, result: Outcome, o: Outcome)
    requires |arrivals| == |outcomes|
    ensures Pick(arrivals + [p], outcomes + [result], o) == Pick(arrivals, outcomes, o) +
      if result == o then [p] else []
  {
    assert (arrivals + [p])[..|arrivals|] == arrivals && (outcomes + [result])[..|outcomes|] == outcomes;
  }

  /** Increasing places of the arrivals. */
  ghost predicate Subsequence(part: seq<Packet>, all: seq<Packet>, places: seq<nat>) {
    && |places| == |part|
    && (forall i :: 0 <= i < |places| ==> places[i] < |all| && all[places[i]] == part[i])
    && (forall i, j :: 0 <= i < j < |places| ==> places[i] < places[j])
  }

  /** The packets of one outcome are a subsequence of the arrivals, namely those with that outcome. */
  lemma {:induction false} PickIsSubsequence(arrivals: seq<Packet>, outcomes: seq<Outcome>, o: Outcome)
    returns (places: seq<nat>)
    requires |arrivals| == |outcomes|
    ensures Subsequence(Pick(arrivals, outcomes, o), arrivals, places)
    ensures forall k: nat :: k in places <==> k < |outcomes| && outcomes[k] == o
  {
    if arrivals == [] {
      places := [];
    } else {
      var n := |arrivals| - 1;
      places := PickIsSubsequence(arrivals[..n], outcomes[..n], o);
      var part := Pick(arrivals[..n], outcomes[..n], o);
      hide Pick;
      assert Subsequence(part, arrivals, places);
      if outcomes[n] == o {
        assert Subsequence(part + [arrivals[n]], arrivals, places + [n]);
        places := places + [n];
      }
    }
  }

  /** Every handled datagram is in exactly one of the five classes. */
  lemma {:induction false} NothingUnaccounted(arrivals: seq<Packet>, outcomes: seq<Outcome>)
    requires |arrivals| == |outcomes|
    ensures |arrivals| ==
      |Pick(arrivals, outcomes, Injected)| + |Pick(arrivals, outcomes, Forwarded)| + |Pick(arrivals, outcomes, Dropped)|
                        + |Pick(arrivals, outcomes, Lost)| + |Pick(arrivals, outcomes, Ignored)|
  {
    if arrivals != [] {
      var n := |arrivals| - 1;
      NothingUnaccounted(arrivals[..n], outcomes[..n]);
    }
  }

  lemma {:induction false} PickNone(arrivals: seq<Packet>, outcomes: seq<Outcome>, o: Outcome)
    requires |arrivals| == |outcomes| && o !in outcomes
    ensures Pick(arrivals, outcomes, o) == []
  {
    if arrivals != [] {
      var n := |arrivals| - 1;
      PickNone(arrivals[..n], outcomes[..n], o);
    }
  }

  /** The bytes in the queued arrays are those of the packets. */
  ghost predicate Holds(queue: seq<Queued>, packets: seq<Packet>)
    reads set q | q in queue :: q.data
  {
    |queue| == |packets| &&
    forall i :: 0 <= i < |queue| ==> queue[i].data[..] == packets[i].data && queue[i].addr == packets[i].addr
  }

  /** STUN datagrams are injected, all others forwarded, dropped or ignored; nothing is lost, nothing is
      ignored while there is a channel, and every drop is counted. */
  ghost predicate Classified(stun: iset<seq<Byte>>, arrivals: seq<Packet>, outcomes: seq<Outcome>, hasPass: bool,
                             dropped: nat) {
    && |outcomes| == |arrivals|
    && (forall i :: 0 <= i < |outcomes| ==> (arrivals[i].data in stun <==> outcomes[i] == Injected))
    && Lost !in outcomes
    && (hasPass ==> Ignored !in outcomes)
    && dropped == |Pick(arrivals, outcomes, Dropped)| % COUNTER_SPACE
  }

  lemma ClassifiedNext(stun: iset<seq<Byte>>, arrivals: seq<Packet>, outcomes: seq<Outcome>, hasPass: bool,
                       dropped: nat, p: Packet, result: Outcome)
    requires Classified(stun, arrivals, outcomes, hasPass, dropped)
    requires p.data in stun <==> result == Injected
    requires result != Lost && (result == Ignored ==> !hasPass)
    ensures Classified(stun, arrivals + [p], outcomes + [result], hasPass, Counted(dropped, result))
  {
    hide Pick;
    PickNext(arrivals, outcomes, p, result, Dropped);
    forall i | 0 <= i < |outcomes| + 1
      ensures (arrivals + [p])[i].data in stun <==> (outcomes + [result])[i] == Injected
    {
    }
  }

  predicate IsRest(queue: seq<Packet>, put: seq<Packet>, gone: nat) { gone <= |put| && queue == put[gone..] }

  lemma RestNext(queue: seq<Packet>, arrivals: seq<Packet>, outcomes: seq<Outcome>, gone: nat, p: Packet,
                 result: Outcome, o: Outcome)
    requires |arrivals| == |outcomes| && IsRest(queue, Pick(arrivals, outcomes, o), gone)
    ensures IsRest(Put(queue, p, result, o), Pick(arrivals + [p], outcomes + [result], o), gone)
  {
    hide Pick;
    PickNext(arrivals, outcomes, p, result, o);
  }

  datatype History = History(
    arrivals: seq<Packet>, outcomes: seq<Outcome>,
    inRecv: seq<Packet>, inPass: seq<Packet>, taken: nat, received: nat)

  /** Every arrival is classified, and what is queued is what was put there, less what was taken off
      the front. */
  ghost predicate Accounts(stun: iset<seq<Byte>>, hasPass: bool, dropped: nat, h: History) {
    && Classified(stun, h.arrivals, h.outcomes, hasPass, dropped)
    && IsRest(h.inRecv, Pick(h.arrivals, h.outcomes, Injected), h.taken)
    && IsRest(h.inPass, Pick(h.arrivals, h.outcomes, Forwarded), h.received)
  }

  /** The oldest injected packet that the ICE mux has not read, and the oldest forwarded one that
      WireGuard has not received. */
  function NextInjected(h: History): Packet
    requires |h.arrivals| == |h.outcomes| && h.taken < |Pick(h.arrivals, h.outcomes, Injected)|
  {
    Pick(h.arrivals, h.outcomes, Injected)[h.taken]
  }

  function NextForwarded(h: History): Packet
    requires |h.arrivals| == |h.outcomes| && h.received < |Pick(h.arrivals, h.outcomes, Forwarded)|
  {
    Pick(h.arrivals, h.outcomes, Forwarded)[h.received]
  }

  function Extended(h: History, p: Packet, result: Outcome): History {
    History(h.arrivals + [p], h.outcomes + [result],
            Put(h.inRecv, p, result, Injected), Put(h.inPass, p, result, Forwarded), h.taken, h.received)
  }

  lemma AccountsNext(stun: iset<seq<Byte>>, hasPass: bool, dropped: nat, h: History, p: Packet, result: Outcome)
    requires Accounts(stun, hasPass, dropped, h)
    requires p.data in stun <==> result == Injected
    requires result != Lost && (result == Ignored ==> !hasPass)
    ensures Accounts(stun, hasPass, Counted(dropped, result), Extended(h, p, result))
  {
    assert |h.outcomes| == |h.arrivals|;
    hide Pick, Classified, IsRest, Counted, Put;
    ClassifiedNext(stun, h.arrivals, h.outcomes, hasPass, dropped, p, result);
    RestNext(h.inRecv, h.arrivals, h.outcomes, h.taken, p, result, Injected);
    RestNext(h.inPass, h.arrivals, h.outcomes, h.received, p, result, Forwarded);
  }

  // ---------------------------------------------------------------- the mux

  class FilteringMux {
    ghost const stun: iset<seq<Byte>>
    const passDepth: Option<nat>
    const buf: array<Byte>
    var pending: Option<(nat, int)>
    var recvCh: seq<Queued>
    var passThroughCh: seq<Queued>
    var droppedCount: nat
    var stopping: bool
    var returned: bool
    var closed: bool
    ghost var history: History

    ghost predicate Shape()
      reads `recvCh, `passThroughCh
    {
      && buf.Length == BUFFER_SIZE && |recvCh| <= INJECT_DEPTH
      && (passDepth.Some? ==> |passThroughCh| <= passDepth.value)
      && (forall q | q in recvCh :: q.data != buf)
      && (forall q | q in passThroughCh :: q.data != buf)
    }

    /** The queues' arrays hold their packets' bytes, whatever has been read into the buffer since. */
    ghost predicate Valid()
      reads this, set q | q in recvCh :: q.data, set q | q in passThroughCh :: q.data
    {
      && Shape() && (pending.Some? ==> pending.value.0 <= BUFFER_SIZE && !returned) && (closed ==> returned)
      && Holds(recvCh, history.inRecv) && Holds(passThroughCh, history.inPass)
      && Accounts(stun, passDepth.Some?, droppedCount, history)
    }

    /** The mux as Close sees it. */
    ghost function View(): Gate
      requires Shape() && (pending.Some? ==> pending.value.0 <= BUFFER_SIZE)
      reads this, buf
    {
      Gate(if returned then Returned else if pending.Some? then Holding(Read().data in stun) else Waiting,
           |recvCh|, stopping, closed)
    }

    constructor (ghost stun: iset<seq<Byte>>, passDepth: Option<nat>)
      ensures Valid() && View() == Gate(Waiting, 0, false, false) && history.arrivals == [] && fresh(buf)
      ensures this.stun == stun && this.passDepth == passDepth
    {
      this.stun, this.passDepth := stun, passDepth;
      buf := new Byte[BUFFER_SIZE](_ => 0);
      pending, recvCh, passThroughCh, droppedCount := None, [], [], 0;
      stopping, returned, closed := false, false, false;
      history := History([], [], [], [], 0, 0);
    }

    /** ReadFrom on the socket: the datagram, cut to the buffer, overwrites what the buffer held. */
    method ReadDatagram(datagram: seq<Byte>, addr: int)
      requires Valid() && pending.None? && !returned
      modifies `pending, buf
      ensures Valid()
      ensures pending == Some((if |datagram| <= 2048 then |datagram| else 2048, addr))
      ensures buf[..pending.value.0] == datagram[..pending.value.0]
      ensures View() == Moved(old(View()), Arrive(Read().data in stun))
    {
      hide Accounts;
      var n := if |datagram| <= BUFFER_SIZE then |datagram| else BUFFER_SIZE;
      forall i | 0 <= i < n {
        buf[i] := datagram[i];
      }
      pending := Some((n, addr));
    }

    /** A fresh array, so that the next read into the buffer does not reach it. */
    method CopyOut(n: nat) returns (data: array<Byte>)
      requires n <= buf.Length
      ensures fresh(data) && data[..] == buf[..n]
    {
      data := new Byte[n](_ => 0);
      forall i | 0 <= i < n {
        data[i] := buf[i];
      }
    }

    /** Queues a copy for the ICE mux. It waits while the queue is full, and gives up once the mux is closed. */
    method Inject(n: nat, addr: int) returns (waits: bool, ok: bool)
      requires n <= buf.Length && Shape() && Holds(recvCh, history.inRecv)
      modifies `recvCh
      ensures Shape()
      ensures Holds(recvCh, if ok then history.inRecv + [Packet(buf[..n], addr)] else history.inRecv)
      ensures waits <==> old(|recvCh|) == INJECT_DEPTH && !closed
      ensures !ok ==> waits || closed
      ensures waits ==> !ok
    {
      var room := |recvCh| < INJECT_DEPTH;
      waits, ok := !room && !closed, room;
      if ok && closed {
        ok := *;
      }
      if ok {
        var data := CopyOut(n);
        recvCh := recvCh + [Queued(data, addr)];
      }
    }

    /** Queues a copy for WireGuard, or counts a drop when there is no room. */
    method PassOn(n: nat, addr: int) returns (ok: bool)
      requires n <= buf.Length && passDepth.Some? && Shape() && Holds(passThroughCh, history.inPass)
      modifies `passThroughCh, `droppedCount
      ensures Shape()
      ensures ok <==> old(|passThroughCh|) < passDepth.value
      ensures !ok ==> passDepth == Some(old(|passThroughCh|))
      ensures Holds(passThroughCh, if ok then history.inPass + [Packet(buf[..n], addr)] else history.inPass)
      ensures droppedCount == if ok then old(droppedCount) else Bumped(old(droppedCount))
    {
      ok := |passThroughCh| < passDepth.value;
      if ok {
        var data := CopyOut(n);
        passThroughCh := passThroughCh + [Queued(data, addr)];
      } else {
        droppedCount := Bumped(droppedCount);
      }
    }

    /** Where the datagram in the buffer goes. */
    method Route(isMessage: bool, n: nat, addr: int) returns (waits: bool, result: Outcome)
      requires n <= buf.Length && Shape() && Holds(recvCh, history.inRecv) && Holds(passThroughCh, history.inPass)
      modifies `pending, `recvCh, `passThroughCh, `droppedCount
      ensures Shape()
      ensures waits <==> isMessage && old(|recvCh|) == INJECT_DEPTH && !closed
      ensures waits ==> result == Lost && droppedCount == old(droppedCount)
      ensures waits ==> Holds(recvCh, history.inRecv) && Holds(passThroughCh, history.inPass)
      ensures pending == if waits then old(pending) else None
      ensures isMessage <==> result == Injected || result == Lost
      ensures (result == Lost && !waits ==> closed) && (result == Ignored ==> passDepth.None?)
      ensures result == Dropped ==> passDepth == Some(old(|passThroughCh|))
      ensures Holds(recvCh, Extended(history, Packet(buf[..n], addr), result).inRecv)
      ensures Holds(passThroughCh, Extended(history, Packet(buf[..n], addr), result).inPass)
      ensures droppedCount == Counted(old(droppedCount), result)
    {
      hide Shape, Bumped;
      waits, result := false, Ignored;
      if isMessage {
        var ok: bool;
        waits, ok := Inject(n, addr);
        result := if ok then Injected else Lost;
      } else if passDepth.Some? {
        var ok := PassOn(n, addr);
        result := if ok then Forwarded else Dropped;
      }
      if !waits {
        pending := None;
      }
    }

    /** The rest of the turn. It only waits for room in the inject queue, and then changes nothing;
        otherwise the datagram in the buffer gets exactly one outcome. Whether it is a STUN message
        (section 5 of RFC 8489) is for the STUN library to say. */
    method Dispatch(isMessage: bool) returns (r: Option<Outcome>)
      requires Valid() && pending.Some? && (isMessage <==> Read().data in stun)
      modifies `pending, `recvCh, `passThroughCh, `droppedCount, `history
      ensures Valid() && View() == Moved(old(View()), HandOver)
      ensures r.None? <==> isMessage && old(|recvCh|) == 256
      ensures r.None? ==> pending == old(pending) && history == old(history)
      ensures r.Some? ==> pending.None? && history == Extended(old(history), old(Read()), r.value)
      ensures r == Some(Dropped) ==> passDepth == Some(old(|passThroughCh|))
    {
      assert buf.Length == BUFFER_SIZE;
      hide Accounts, Shape, Counted, Extended;
      var (n, addr) := pending.value;
      ghost var p := Read();
      var waits, result := Route(isMessage, n, addr);
      if waits {
        return None;
      }
      AccountsNext(stun, passDepth.Some?, old(droppedCount), history, p, result);
      history := Extended(history, p, result);
      r := Some(result);
    }

    /** The datagram in the buffer. */
    ghost function Read(): Packet
      requires pending.Some? && pending.value.0 <= buf.Length
      reads this, buf
    {
      Packet(buf[..pending.value.0], pending.value.1)
    }

    /** The ICE mux reads the oldest injected packet, cut to its own buffer. */
    method ReadFrom(p: array<Byte>) returns (r: Option<(nat, int)>)
      requires Valid() && p != buf && forall q | q in recvCh + passThroughCh :: q.data != p
      modifies `recvCh, `history, p
      ensures Valid()
      ensures r.None? ==> recvCh == old(recvCh) && history == old(history) && (old(recvCh) == [] || closed)
      ensures r.Some? ==> old(recvCh) != [] && View() == Moved(old(View()), Take)
      ensures r.Some? ==> history == old(history).(inRecv := old(history).inRecv[1..], taken := old(history).taken + 1)
      ensures r.Some? ==> Filled(p[..], NextInjected(old(history)), r.value.0, r.value.1)
    {
      hide Pick;
      var gone := recvCh == [];
      if closed && !gone {
        gone := *;
      }
      if gone {
        return None;
      }
      var msg := recvCh[0];
      var n := if msg.data.Length <= p.Length then msg.data.Length else p.Length;
      forall i | 0 <= i < n {
        p[i] := msg.data[i];
      }
      recvCh := recvCh[1..];
      history := history.(inRecv := history.inRecv[1..], taken := history.taken + 1);
      r := Some((n, msg.addr));
    }

    /** WireGuard receives the oldest forwarded packet. */
    method Receive() returns (r: Option<Queued>)
      requires Valid()
      modifies `passThroughCh, `history
      ensures Valid() && View() == old(View())
      ensures r.None? <==> old(passThroughCh) == []
      ensures r.None? ==> history == old(history)
      ensures r.Some? ==>
        history == old(history).(inPass := old(history).inPass[1..], received := old(history).received + 1)
      ensures r.Some? ==> Packet(r.value.data[..], r.value.addr) == NextForwarded(old(history))
    {
      hide Pick;
      if passThroughCh == [] {
        return None;
      }
      var q := passThroughCh[0];
      passThroughCh := passThroughCh[1..];
      history := history.(inPass := history.inPass[1..], received := history.received + 1);
      r := Some(q);
    }

    /** The socket reports that it is closed, and the read loop returns. Nothing else ends it. */
    method ReaderReturns()
      requires Valid() && pending.None? && !returned
      modifies `returned
      ensures Valid() && View() == Moved(old(View()), Return)
    {
      hide Accounts;
      returned := true;
    }

    /** Close, one look at the reader: it is done exactly when the reader has returned. */
    method Close() returns (done: bool)
      requires Valid()
      modifies `stopping, `closed
      ensures Valid() && View() == Moved(old(View()), Shut)
      ensures (done <==> returned) && (done ==> closed)
    {
      hide Accounts;
      stopping := true;
      done := returned;
      if done {
        closed := true;
      }
    }
  }

  /** As much of the packet as fits. */
  predicate Filled(p: seq<Byte>, packet: Packet, n: nat, addr: int) {
    && addr == packet.addr && n <= |p| && n <= |packet.data| && p[..n] == packet.data[..n]
    && (n == |packet.data| || n == |p|)
  }

  /** With its pass-through channel, every datagram the mux ever handled was injected, forwarded or dropped,
      exactly once, also while it is being closed; the drops are the counter's, modulo its width. */
  lemma EveryDatagramAccounted(stun: iset<seq<Byte>>, dropped: nat, h: History)
    requires Accounts(stun, true, dropped, h)
    ensures |h.arrivals| == |h.outcomes|
    ensures |h.arrivals| ==
      |Pick(h.arrivals, h.outcomes, Injected)| + |Pick(h.arrivals, h.outcomes, Forwarded)|
      + |Pick(h.arrivals, h.outcomes, Dropped)|
    ensures dropped ==
      (|h.arrivals| - |Pick(h.arrivals, h.outcomes, Injected)| - |Pick(h.arrivals, h.outcomes, Forwarded)|)
      % COUNTER_SPACE
    ensures forall i :: 0 <= i < |h.arrivals| ==> (h.outcomes[i] == Injected <==> h.arrivals[i].data in stun)
  {
    NothingUnaccounted(h.arrivals, h.outcomes);
    PickNone(h.arrivals, h.outcomes, Lost);
    PickNone(h.arrivals, h.outcomes, Ignored);
  }
}
