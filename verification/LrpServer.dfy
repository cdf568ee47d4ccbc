/** One relay session: the bytes of a connection become a registration and relayed frames. */
module LrpServer {
  import opened Prelude
  import opened Lrp

  /** A frame handed to the session table, with the session id it is for. */
  datatype Relay = Relay(toId: U32, frame: Bytes)

  predicate CarriesPayload(cmd: Byte) { cmd == FORWARD || cmd == PROBE }

  // ---------------------------------------------------------------- the session loop

  /** What the loop makes of the bytes after the registration. */
  function Relayed(s: Bytes): seq<Relay>
    decreases |s|
  {
    if |s| < HEADER_SIZE then []
    else
      var h := Decode(s);
      if !CarriesPayload(h.cmd) then Relayed(s[HEADER_SIZE..])
      else if |s| < HEADER_SIZE + h.payloadLen then []
      else [Relay(h.toId, s[..HEADER_SIZE + h.payloadLen])] + Relayed(s[HEADER_SIZE + h.payloadLen..])
  }

  /** The session loop over the bytes a connection delivers before it ends. The header buffer is one
      array for the whole session. */
  method HandleSession(input: Bytes) returns (registered: Option<U32>, relayed: seq<Relay>)
    ensures registered.Some? <==> |input| >= HEADER_SIZE && Decode(input).cmd == 1
    ensures registered.Some? ==> registered.value == Decode(input).toId && relayed == Relayed(input[HEADER_SIZE..])
    ensures registered.None? ==> relayed == []
  {
    hide Encode, Decode;
    registered, relayed := None, [];
    var headBuf := new Byte[HEADER_SIZE](_ => 0);
    var pos := 0;
    var ok := ReadFull(input, pos, headBuf);
    if !ok {
      return;
    }
    pos := HEADER_SIZE;
    var header := Unmarshal(headBuf[..]);
    FirstHeader(input, 0, header);
    if header.value.cmd != REGISTER {
      return;
    }
    registered := Some(header.value.toId);
    while true
      invariant HEADER_SIZE <= pos <= |input|
      invariant headBuf.Length == HEADER_SIZE
      invariant relayed + Relayed(input[pos..]) == Relayed(input[HEADER_SIZE..])
      decreases |input| - pos
    {
      ok := ReadFull(input, pos, headBuf);
      if !ok {
        assert Relayed(input[pos..]) == [];
        break;
      }
      ghost var rest := input[pos..];
      header := Unmarshal(headBuf[..]);
      FirstHeader(input, pos, header);
      var h := header.value;
      pos := pos + HEADER_SIZE;
      assert input[pos..] == rest[HEADER_SIZE..];
      if CarriesPayload(h.cmd) {
        var start := pos;
        if |input| - pos < h.payloadLen {
          // The payload is cut off; what there is of it is consumed and the next read ends the loop.
          pos := |input|;
          assert Relayed(rest) == [] && Relayed(input[pos..]) == [];
          continue;
        }
        pos := pos + h.payloadLen;
        var frame := headBuf[..] + input[start..pos];
        assert frame == rest[..HEADER_SIZE + h.payloadLen] && input[pos..] == rest[HEADER_SIZE + h.payloadLen..];
        relayed := relayed + [Relay(h.toId, frame)];
      }
    }
  }

  /** io.ReadFull into the header buffer: all of it, or an error. */
  method ReadFull(input: Bytes, pos: nat, buf: array<Byte>) returns (ok: bool)
    requires pos <= |input| && buf.Length == HEADER_SIZE
    modifies buf
    ensures ok <==> pos + HEADER_SIZE <= |input|
    ensures ok ==> buf[..] == input[pos..pos + HEADER_SIZE]
  {
    ok := pos + HEADER_SIZE <= |input|;
    if ok {
      forall i | 0 <= i < HEADER_SIZE {
        buf[i] := input[pos + i];
      }
    }
  }

  lemma FirstHeader(input: Bytes, pos: nat, header: Option<Header>)
    requires pos + HEADER_SIZE <= |input| && header.Some? && Encode(header.value) == input[pos..pos + HEADER_SIZE]
    ensures header.value == Decode(input[pos..])
  {
    hide Encode, Decode;
    DecodeEncode(header.value, input[pos + HEADER_SIZE..]);
    assert input[pos..] == Encode(header.value) + input[pos + HEADER_SIZE..];
  }

  // ---------------------------------------------------------------- frames

  datatype Frame = Frame(header: Header, payload: Bytes)

  /** Forward and Probe carry what their header announces, other commands nothing. */
  predicate WellFormed(f: Frame) {
    |f.payload| == if CarriesPayload(f.header.cmd) then f.header.payloadLen else 0
  }

  function OnWire(f: Frame): Bytes { Encode(f.header) + f.payload }

  function Stream(frames: seq<Frame>): Bytes {
    if frames == [] then [] else OnWire(frames[0]) + Stream(frames[1..])
  }

  /** The frames that lie wholly within the first k bytes of their stream. */
  function Complete(frames: seq<Frame>, k: nat): seq<Frame> {
    if frames == [] || k < |OnWire(frames[0])| then []
    else [frames[0]] + Complete(frames[1..], k - |OnWire(frames[0])|)
  }

  lemma {:induction false} CompleteIsLongest(frames: seq<Frame>, k: nat)
    requires k <= |Stream(frames)|
    ensures var done := Complete(frames, k);
      && |done| <= |frames| && done == frames[..|done|] && Stream(done) <= Stream(frames)[..k]
      && (|done| < |frames| ==> k < |Stream(done)| + |OnWire(frames[|done|])|)
  {
    hide Encode;
    if frames != [] && k >= |OnWire(frames[0])| {
      var head, done := OnWire(frames[0]), Complete(frames[1..], k - |OnWire(frames[0])|);
      CompleteIsLongest(frames[1..], k - |head|);
      assert frames[..|done| + 1] == [frames[0]] + frames[1..][..|done|];
      assert ([frames[0]] + done)[1..] == done;
      assert Stream(frames)[..k] == head + Stream(frames[1..])[..k - |head|];
      assert Stream([frames[0]] + done) == head + Stream(done);
    }
  }

  function RelayOf(f: Frame): seq<Relay> {
    if CarriesPayload(f.header.cmd) then [Relay(f.header.toId, OnWire(f))] else []
  }

  /** The Forward and Probe frames, each for the id in its header, in order. */
  function Relays(frames: seq<Frame>): seq<Relay> {
    if frames == [] then [] else RelayOf(frames[0]) + Relays(frames[1..])
  }

  lemma OneFrame(f: Frame, rest: Bytes)
    requires WellFormed(f)
    ensures Relayed(OnWire(f) + rest) == RelayOf(f) + Relayed(rest)
  {
    hide Encode, Decode;
    var s := OnWire(f) + rest;
    assert s == Encode(f.header) + (f.payload + rest);
    DecodeEncode(f.header, f.payload + rest);
    assert s[|OnWire(f)|..] == rest && s[..|OnWire(f)|] == OnWire(f);
  }

  lemma CutFrame(f: Frame, k: nat)
    requires WellFormed(f) && k < |OnWire(f)|
    ensures Relayed(OnWire(f)[..k]) == []
  {
    hide Encode, Decode;
    if k >= HEADER_SIZE {
      var s := OnWire(f)[..k];
      assert s == Encode(f.header) + f.payload[..k - HEADER_SIZE];
      DecodeEncode(f.header, f.payload[..k - HEADER_SIZE]);
    }
  }

  /** However the stream of well-formed frames is cut off, exactly the complete Forward and Probe frames
      are relayed, in order, byte for byte. */
  lemma {:induction false} RelaysCompleteFrames(frames: seq<Frame>, k: nat)
    requires k <= |Stream(frames)| && forall f | f in frames :: WellFormed(f)
    ensures Relayed(Stream(frames)[..k]) == Relays(Complete(frames, k))
  {
    hide Encode, Decode, WellFormed, OnWire, Relayed, RelayOf;
    if frames == [] {
      assert Stream(frames)[..k] == [];
      NothingRelayed();
    } else if k < |OnWire(frames[0])| {
      assert Stream(frames)[..k] == OnWire(frames[0])[..k];
      CutFrame(frames[0], k);
    } else {
      var head, left := OnWire(frames[0]), k - |OnWire(frames[0])|;
      assert Stream(frames)[..k] == head + Stream(frames[1..])[..left];
      OneFrame(frames[0], Stream(frames[1..])[..left]);
      RelaysCompleteFrames(frames[1..], left);
      assert ([frames[0]] + Complete(frames[1..], left))[1..] == Complete(frames[1..], left);
    }
  }

  lemma NothingRelayed()
    ensures Relayed([]) == []
  {
  }

  /** The whole session: any prefix of a Register header and well-formed frames that holds the header
      registers its id, and relays the complete Forward and Probe frames. */
  lemma SessionRelaysCompleteFrames(id: Header, frames: seq<Frame>, input: Bytes)
    requires id.cmd == REGISTER && input <= Encode(id) + Stream(frames) && |input| >= HEADER_SIZE
    requires forall f | f in frames :: WellFormed(f)
    ensures Decode(input) == id
    ensures Relayed(input[HEADER_SIZE..]) == Relays(Complete(frames, |input| - HEADER_SIZE))
  {
    hide Encode, Decode, WellFormed;
    var k := |input| - HEADER_SIZE;
    assert input == (Encode(id) + Stream(frames))[..|input|] == Encode(id) + Stream(frames)[..k];
    DecodeEncode(id, Stream(frames)[..k]);
    assert input[HEADER_SIZE..] == Stream(frames)[..k];
    RelaysCompleteFrames(frames, k);
  }

  /** A payload under any other command is not skipped: its bytes are read as the next frames. */
  lemma OtherPayloadIsParsed(f: Frame, rest: Bytes)
    requires !CarriesPayload(f.header.cmd)
    ensures Relayed(OnWire(f) + rest) == Relayed(f.payload + rest)
  {
    hide Encode, Decode;
    var s := OnWire(f) + rest;
    assert s == Encode(f.header) + (f.payload + rest);
    DecodeEncode(f.header, f.payload + rest);
    assert s[HEADER_SIZE..] == f.payload + rest;
  }

  /** Commands 2 and 4, Forward and Probe, are relayed with their payload as they came. */
  lemma DataFrameIsRelayed(h: Header, payload: Bytes, rest: Bytes)
    requires (h.cmd == 2 || h.cmd == 4) && |payload| == h.payloadLen
    ensures Relayed(Encode(h) + payload + rest) == [Relay(h.toId, Encode(h) + payload)] + Relayed(rest)
  {
    hide Encode, Decode;
    OneFrame(Frame(h, payload), rest);
  }

  /** Cut off anywhere before its end, such a frame is not relayed at all. */
  lemma CutDataFrame(h: Header, payload: Bytes, k: nat)
    requires (h.cmd == 2 || h.cmd == 4) && |payload| == h.payloadLen && k < HEADER_SIZE + |payload|
    ensures Relayed((Encode(h) + payload)[..k]) == []
  {
    hide Encode, Decode;
    CutFrame(Frame(h, payload), k);
  }

  /** For every other command, keep-alives included, the header alone is read and nothing is relayed. */
  lemma OtherHeaderIsSkipped(h: Header, rest: Bytes)
    requires h.cmd != 2 && h.cmd != 4
    ensures Relayed(Encode(h) + rest) == Relayed(rest)
  {
    hide Encode, Decode;
    OneFrame(Frame(h, []), rest);
    assert Encode(h) + [] + rest == Encode(h) + rest;
  }

  // ---------------------------------------------------------------- payloads of other commands

  /** A sequence of whole headers, none of which announces a payload that is read. */
  predicate Harmless(p: Bytes)
    decreases |p|
  {
    p == [] || (|p| >= HEADER_SIZE && !CarriesPayload(Decode(p).cmd) && Harmless(p[HEADER_SIZE..]))
  }

  lemma SameHeader(p: Bytes, rest: Bytes)
    requires |p| >= HEADER_SIZE
    ensures Decode(p + rest) == Decode(p)
  {
    SamePrefix(p);
    SamePrefix(p + rest);
    assert (p + rest)[..HEADER_SIZE] == p[..HEADER_SIZE];
  }

  lemma {:induction false} HarmlessIsSkipped(p: Bytes, rest: Bytes)
    requires Harmless(p)
    ensures Relayed(p + rest) == Relayed(rest)
    decreases |p|
  {
    hide Decode;
    if p == [] {
      assert p + rest == rest;
    } else {
      SameHeader(p, rest);
      assert (p + rest)[HEADER_SIZE..] == p[HEADER_SIZE..] + rest;
      HarmlessIsSkipped(p[HEADER_SIZE..], rest);
    }
  }

  lemma {:induction false} ZerosRelayNothing(n: nat)
    ensures Relayed(seq(n, _ => 0 as Byte)) == []
  {
    var s := seq(n, _ => 0 as Byte);
    if n >= HEADER_SIZE {
      assert s[HEADER_SIZE..] == seq(n - HEADER_SIZE, _ => 0 as Byte);
      ZerosRelayNothing(n - HEADER_SIZE);
      assert Decode(s).cmd == s[6];
    }
  }

  /** A payload that announces a payload of its own: once that is complete, a frame is relayed. */
  lemma AnnouncedIsRelayed(p: Bytes) returns (rest: Bytes)
    requires |p| >= HEADER_SIZE && CarriesPayload(Decode(p).cmd)
    ensures Relayed(p + rest) != Relayed(rest)
  {
    hide Decode;
    var frame := HEADER_SIZE + Decode(p).payloadLen;
    if |p| >= frame {
      rest := [];
      assert p + rest == p;
    } else {
      rest := seq(frame - |p|, _ => 0 as Byte);
      ZerosRelayNothing(frame - |p|);
      SameHeader(p, rest);
    }
  }

  /** A header cut short swallows the beginning of the next frame. */
  lemma CutHeaderMisreads(p: Bytes) returns (rest: Bytes)
    requires 0 < |p| < HEADER_SIZE
    ensures Relayed(p + rest) != Relayed(rest)
  {
    var h := Header(if p[0] == 0 then 1 else 0, 0, FORWARD, 0, 0);
    rest := Encode(h);
    assert rest[0] != p[0];
    hide Encode, Decode;
    DecodeEncode(h, []);
    assert rest + [] == rest;
    assert Relayed(rest) == [Relay(0, rest)] by { assert rest[HEADER_SIZE..] == [] && rest[..HEADER_SIZE] == rest; }
    var s := p + rest;
    assert s[0] != rest[0];
    ShortTail(s);
  }

  lemma ShortTail(s: Bytes)
    requires HEADER_SIZE <= |s| < 2 * HEADER_SIZE
    ensures Relayed(s) == [] ||
      exists id: U32, n: nat :: n <= |s| && Relayed(s) == [Relay(id, s[..n])] && n >= HEADER_SIZE
  {
    hide Decode;
    var h := Decode(s);
    if CarriesPayload(h.cmd) && |s| >= HEADER_SIZE + h.payloadLen {
      assert Relayed(s[HEADER_SIZE + h.payloadLen..]) == [];
      assert Relayed(s) == [Relay(h.toId, s[..HEADER_SIZE + h.payloadLen])];
    } else if !CarriesPayload(h.cmd) {
      assert Relayed(s[HEADER_SIZE..]) == [];
    }
  }

  lemma {:induction false} OtherwiseMisread(p: Bytes) returns (rest: Bytes)
    requires !Harmless(p)
    ensures Relayed(p + rest) != Relayed(rest)
    decreases |p|
  {
    hide Decode;
    if |p| < HEADER_SIZE {
      rest := CutHeaderMisreads(p);
    } else if CarriesPayload(Decode(p).cmd) {
      rest := AnnouncedIsRelayed(p);
    } else {
      rest := OtherwiseMisread(p[HEADER_SIZE..]);
      SameHeader(p, rest);
      assert (p + rest)[HEADER_SIZE..] == p[HEADER_SIZE..] + rest;
    }
  }

  /** Under any other command than Forward and Probe, a payload changes nothing, whatever bytes follow, exactly
      when it is a sequence of whole headers of such commands. */
  lemma PayloadIgnoredIffHarmless(f: Frame)
    requires !CarriesPayload(f.header.cmd)
    ensures (forall rest :: Relayed(OnWire(f) + rest) == Relayed(rest)) <==> Harmless(f.payload)
  {
    hide OnWire, Harmless;
    if Harmless(f.payload) {
      forall rest ensures Relayed(OnWire(f) + rest) == Relayed(rest) {
        OtherPayloadIsParsed(f, rest);
        HarmlessIsSkipped(f.payload, rest);
      }
    } else {
      var rest := OtherwiseMisread(f.payload);
      OtherPayloadIsParsed(f, rest);
    }
  }
}
