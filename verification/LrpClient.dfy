/** The TCP relay client: frames go through a bounded queue, a buffered writer and the connection. */
module LrpClient {
  import opened Prelude
  import opened Lrp
  import opened LrpServer

  const QUEUE_DEPTH := 256
  const BUFFER_SIZE := 128 * 1024

  /** The frame for a message: ids and lengths are cut to 32 bits, the sequence number to 16. */
  function FrameFor(counter: U32, toId: nat, cmd: Byte, data: Bytes): Frame {
    Frame(Header(counter % 0x1_0000, |data| % 0x1_0000_0000, cmd, toId % 0x1_0000_0000, 0), data)
  }

  /** Only an oversized payload, or one under a command that carries none, makes a frame the server
      does not read back as sent. */
  lemma FrameIsWellFormed(counter: U32, toId: nat, cmd: Byte, data: Bytes)
    ensures WellFormed(FrameFor(counter, toId, cmd, data)) <==>
      if CarriesPayload(cmd) then |data| < 0x1_0000_0000 else data == []
  {
    if CarriesPayload(cmd) && |data| >= 0x1_0000_0000 {
      assert |data| % 0x1_0000_0000 < 0x1_0000_0000;
    }
  }

  /** A frame on the wire: the counter's low 16 bits, the length and the id cut to 32 bits, the command, a zero,
      and the data. */
  lemma FrameLayout(counter: U32, toId: nat, cmd: Byte, data: Bytes)
    ensures var w := OnWire(FrameFor(counter, toId, cmd, data));
      && |w| == 12 + |data| && w[12..] == data
      && LittleEndian(w[0..2]) == counter % 0x1_0000 && LittleEndian(w[2..6]) == |data| % 0x1_0000_0000
      && w[6] == cmd && LittleEndian(w[7..11]) == toId % 0x1_0000_0000 && w[11] == 0
  {
    var f := FrameFor(counter, toId, cmd, data);
    EncodeLayout(f.header);
    var w, e := OnWire(f), Encode(f.header);
    hide Encode;
    assert w[0..2] == e[0..2] && w[2..6] == e[2..6] && w[7..11] == e[7..11] && w[6] == e[6] && w[11] == e[11];
  }

  function Flat(queue: seq<Bytes>): Bytes {
    if queue == [] then [] else Flat(queue[..|queue| - 1]) + queue[|queue| - 1]
  }

  lemma {:induction false} FlatFirst(queue: seq<Bytes>)
    requires queue != []
    ensures Flat(queue) == queue[0] + Flat(queue[1..])
  {
    if |queue| == 1 {
      assert queue[1..] == [] && queue[..0] == [];
    } else {
      var init := queue[..|queue| - 1];
      FlatFirst(init);
      assert init[1..] == queue[1..][..|queue| - 2];
      assert queue[0] + (Flat(init[1..]) + queue[|queue| - 1]) == (queue[0] + Flat(init[1..])) + queue[|queue| - 1];
    }
  }

  lemma {:induction false} StreamSnoc(frames: seq<Frame>, f: Frame)
    ensures Stream(frames + [f]) == Stream(frames) + OnWire(f)
  {
    hide OnWire;
    if frames == [] {
      assert frames + [f] == [f] && [f][1..] == [];
      assert Stream([f]) == OnWire(f) + Stream([]);
    } else {
      StreamSnoc(frames[1..], f);
      assert (frames + [f])[1..] == frames[1..] + [f];
      assert Stream(frames + [f]) == OnWire(frames[0]) + (Stream(frames[1..]) + OnWire(f));
    }
  }

  class TcpClient {
    const localId: nat
    const registration: Header
    var counter: U32
    var sendCh: seq<Bytes>
    var buffered: Bytes
    var wire: Bytes
    var stopped: bool
    ghost var accepted: seq<Frame>

    /** The Register header and the frames Send accepted, in that order. */
    ghost function Sent(): Bytes
      reads `accepted
    {
      Encode(registration) + Stream(accepted)
    }

    /** Nothing is lost, added or reordered on the way: what is on the wire, in the writer's buffer, in
        the writer's hand and in the queue is what was sent. */
    ghost predicate Conserved(hand: Bytes)
      reads this
    {
      wire + buffered + (hand + Flat(sendCh)) == Sent()
    }

    ghost predicate Valid()
      reads this
    {
      && |sendCh| <= QUEUE_DEPTH && |buffered| <= BUFFER_SIZE && HEADER_SIZE <= |wire|
      && wire <= Sent() && (!stopped ==> Conserved([]))
    }

    /** A connected client; the Register header is written before the writer starts. */
    constructor (localId: nat)
      ensures Valid() && this.localId == localId && accepted == [] && wire == Encode(registration)
      ensures registration.cmd == 1 && registration.payloadLen == 0
      ensures registration.toId == localId % 0x1_0000_0000
    {
      this.localId := localId;
      var header := Header(1, 0, REGISTER, localId % 0x1_0000_0000, 0);
      registration, counter, accepted := header, 1, [];
      sendCh, buffered, stopped := [], [], false;
      wire := Encode(header);
      new;
      hide Encode;
      assert Stream(accepted) == [] && Flat(sendCh) == [];
    }

    method MakeFrame(toId: nat, cmd: Byte, data: Bytes) returns (frame: Bytes)
      modifies `counter
      ensures counter == (old(counter) + 1) % 0x1_0000_0000
      ensures frame == OnWire(FrameFor(counter, toId, cmd, data))
    {
      hide Encode;
      counter := (counter + 1) % 0x1_0000_0000;
      var h := Header(counter % 0x1_0000, |data| % 0x1_0000_0000, cmd, toId % 0x1_0000_0000, 0);
      var head := Marshal(h);
      frame := head[..] + data;
    }

    /** Accepts the frame exactly when the queue has room. */
    method Send(targetId: nat, cmd: Byte, data: Bytes) returns (ok: bool)
      requires |sendCh| <= QUEUE_DEPTH
      modifies `counter, `sendCh, `accepted
      ensures ok <==> old(|sendCh|) < 256
      ensures accepted == if ok then old(accepted) + [FrameFor(counter, targetId, cmd, data)] else old(accepted)
      ensures sendCh == if ok then old(sendCh) + [OnWire(FrameFor(counter, targetId, cmd, data))] else old(sendCh)
      ensures forall hand :: old(Conserved(hand)) ==> Conserved(hand)
      ensures old(Sent()) <= Sent()
    {
      hide Encode, OnWire;
      var frame := MakeFrame(targetId, cmd, data);
      ok := |sendCh| < QUEUE_DEPTH;
      if ok {
        ghost var f := FrameFor(counter, targetId, cmd, data);
        StreamSnoc(accepted, f);
        assert (sendCh + [frame])[..|sendCh|] == sendCh;
        sendCh := sendCh + [frame];
        accepted := accepted + [f];
        assert Flat(sendCh) == old(Flat(sendCh)) + frame;
        forall hand | old(Conserved(hand)) ensures Conserved(hand) {
          assert wire + buffered + (hand + Flat(sendCh)) == old(wire + buffered + (hand + Flat(sendCh))) + frame;
          assert Sent() == old(Sent()) + frame;
        }
      }
    }

    /** Any number of Send calls by other goroutines. */
    method OthersSend()
      requires |sendCh| <= QUEUE_DEPTH
      modifies `counter, `sendCh, `accepted
      ensures old(sendCh) <= sendCh && |sendCh| <= QUEUE_DEPTH
      ensures forall hand :: old(Conserved(hand)) ==> Conserved(hand)
      ensures old(Sent()) <= Sent()
    {
      hide Conserved, Sent, FrameFor, OnWire;
      var calls: nat :| 0 <= calls;
      for i := 0 to calls
        invariant old(sendCh) <= sendCh && |sendCh| <= QUEUE_DEPTH
        invariant forall hand :: old(Conserved(hand)) ==> Conserved(hand)
        invariant old(Sent()) <= Sent()
      {
        var target: nat, cmd: Byte, data: Bytes := *, *, *;
        var ok := Send(target, cmd, data);
      }
    }

    /** The connection takes all of the bytes, or fails after some of them. */
    method ConnWrite(data: Bytes) returns (ok: bool)
      modifies `wire
      ensures old(wire) <= wire <= old(wire) + data
      ensures ok ==> wire == old(wire) + data
    {
      var n: nat :| 0 <= n;
      ok := n >= |data|;
      var taken := if ok then data else data[..n];
      assert data == taken + data[|taken|..];
      wire := wire + taken;
    }

    method Flush() returns (ok: bool)
      modifies `wire, `buffered
      ensures old(wire) <= wire <= old(wire) + old(buffered)
      ensures ok ==> wire == old(wire) + old(buffered) && buffered == []
      ensures !ok ==> buffered == old(buffered)
    {
      ok := ConnWrite(buffered);
      if ok {
        buffered := [];
      }
    }

    /** The buffered writer: a full buffer is flushed, and what does not fit into an empty buffer goes
        straight to the connection. */
    method Write(frame: Bytes) returns (ok: bool)
      requires |buffered| <= BUFFER_SIZE
      modifies `wire, `buffered
      ensures |buffered| <= BUFFER_SIZE && old(wire) <= wire
      ensures wire <= old(wire) + old(buffered) + frame
      ensures ok ==> wire + buffered == old(wire) + old(buffered) + frame
    {
      var p := frame;
      ghost var all := wire + buffered + frame;
      while |p| > BUFFER_SIZE - |buffered|
        invariant |buffered| <= BUFFER_SIZE && old(wire) <= wire
        invariant wire + buffered + p == all
        decreases |p|, |buffered|
      {
        if buffered == [] {
          ok := ConnWrite(p);
          if !ok {
            assert wire <= all;
            return;
          }
          p := [];
          assert wire + buffered + p == all;
        } else {
          var n := BUFFER_SIZE - |buffered|;
          ghost var was := wire + buffered + p;
          buffered := buffered + p[..n];
          p := p[n..];
          assert wire + buffered + p == was;
          ghost var full := buffered;
          ok := Flush();
          if !ok {
            assert all == old(wire) + old(buffered) + frame;
            return;
          }
          assert wire + buffered + p == was;
        }
      }
      buffered := buffered + p;
      ok := true;
    }

    /** Takes the oldest frame off the queue and writes it. */
    method WriteNext() returns (ok: bool)
      requires sendCh != [] && |sendCh| <= QUEUE_DEPTH && |buffered| <= BUFFER_SIZE && HEADER_SIZE <= |wire|
      requires Conserved([])
      modifies `sendCh, `wire, `buffered
      ensures sendCh == old(sendCh)[1..] && |buffered| <= BUFFER_SIZE && HEADER_SIZE <= |wire|
      ensures old(wire) <= wire <= Sent()
      ensures ok ==> Conserved([]) && wire + buffered == old(wire) + old(buffered) + old(sendCh)[0]
    {
      hide Encode, Stream;
      FlatFirst(sendCh);
      var frame := sendCh[0];
      sendCh := sendCh[1..];
      ghost var before := wire + buffered + frame;
      assert before + Flat(sendCh) == Sent() by {
        assert wire + buffered + ([] + (frame + Flat(sendCh))) == before + Flat(sendCh);
      }
      ok := Write(frame);
      assert wire <= before <= Sent();
      if ok {
        assert wire + buffered + ([] + Flat(sendCh)) == before + Flat(sendCh);
      }
    }

    /** The rest of a turn: as many frames as are queued when it looks, then a flush. What had been
        accepted by then is on the wire afterwards. */
    method DrainBatch() returns (alive: bool)
      requires Valid() && !stopped
      modifies this
      ensures Valid() && stopped == !alive && old(wire) <= wire && old(Sent()) <= Sent()
      ensures alive ==> buffered == [] && old(Sent()) <= wire
    {
      hide Encode, Stream, Flat, Sent;
      ghost var start, mark := wire, Sent();
      var batchSize := |sendCh|;
      assert sendCh[..batchSize] == sendCh && wire + buffered + ([] + Flat(sendCh)) == wire + buffered + Flat(sendCh);
      for i := 0 to batchSize
        invariant !stopped && batchSize - i <= |sendCh| <= QUEUE_DEPTH && |buffered| <= BUFFER_SIZE
        invariant HEADER_SIZE <= |wire|
        invariant Conserved([]) && start <= wire && mark <= Sent()
        invariant wire + buffered + Flat(sendCh[..batchSize - i]) == mark
      {
        ghost var rest := sendCh[..batchSize - i];
        OthersSend();
        assert sendCh[..batchSize - i] == rest;
        FlatFirst(rest);
        ghost var before := wire + buffered;
        alive := WriteNext();
        if !alive {
          stopped := true;
          return;
        }
        assert sendCh[..batchSize - i - 1] == rest[1..];
        assert wire + buffered + Flat(rest[1..]) == before + (rest[0] + Flat(rest[1..]));
      }
      NothingFlat(sendCh);
      assert wire + buffered == mark;
      ghost var flushed := wire + buffered;
      alive := Flush();
      stopped := !alive;
      assert flushed + ([] + Flat(sendCh)) == Sent();
      if alive {
        assert wire + buffered == flushed;
      }
    }

    /** One turn of the writer loop. Other goroutines send in between. A write error or a cancelled context
        stops the writer; a turn that had a frame to take puts everything accepted before it on the wire. */
    method WriterRound() returns (alive: bool)
      requires Valid() && !stopped
      modifies this
      ensures Valid() && stopped == !alive && old(wire) <= wire && old(Sent()) <= Sent()
      ensures alive && old(sendCh) != [] ==> buffered == [] && old(Sent()) <= wire
    {
      hide Encode, Stream, Flat, Sent;
      OthersSend();
      var cancelled: bool := *;
      if cancelled {
        stopped := true;
        return false;
      }
      if sendCh == [] {
        return true;
      }
      alive := WriteNext();
      if !alive {
        stopped := true;
        return;
      }
      OthersSend();
      alive := DrainBatch();
    }
  }

  lemma NothingFlat(queue: seq<Bytes>)
    ensures Flat(queue[..0]) == []
  {
  }
}
