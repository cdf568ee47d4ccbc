/** The relay protocol's twelve-byte little-endian frame header. */
module Lrp {
  import opened Prelude

  type Byte = x: int | 0 <= x < 0x100
  type Bytes = seq<Byte>
  type U16 = x: int | 0 <= x < 0x1_0000
  type U32 = x: int | 0 <= x < 0x1_0000_0000

  const HEADER_SIZE := 12
  const REGISTER: Byte := 1
  const FORWARD: Byte := 2
  const KEEP_ALIVE: Byte := 3
  const PROBE: Byte := 4

  datatype Header = Header(sequence: U16, payloadLen: U32, cmd: Byte, toId: U32, reserved: Byte)

  function Le16(v: U16): Bytes { [v % 0x100, v / 0x100] }

  function Le32(v: U32): Bytes { Le16(v % 0x1_0000) + Le16(v / 0x1_0000) }

  function FromLe16(b: Bytes): U16 requires |b| == 2 { b[0] as int + 0x100 * b[1] as int }

  function FromLe32(b: Bytes): U32 requires |b| == 4 { FromLe16(b[..2]) as int + 0x1_0000 * FromLe16(b[2..]) as int }

  function Encode(h: Header): (r: Bytes)
    ensures |r| == HEADER_SIZE
  {
    Le16(h.sequence) + Le32(h.payloadLen) + [h.cmd] + Le32(h.toId) + [h.reserved]
  }

  function Decode(b: Bytes): Header
    requires |b| >= HEADER_SIZE
  {
    Header(FromLe16(b[0..2]), FromLe32(b[2..6]), b[6], FromLe32(b[7..11]), b[11])
  }

  lemma Le16Inverse(v: U16)
    ensures |Le16(v)| == 2 && FromLe16(Le16(v)) == v
  {
  }

  lemma Le32Inverse(v: U32)
    ensures |Le32(v)| == 4 && FromLe32(Le32(v)) == v
  {
    var b := Le32(v);
    assert b[..2] == Le16(v % 0x1_0000) && b[2..] == Le16(v / 0x1_0000);
    Le16Inverse(v % 0x1_0000);
    Le16Inverse(v / 0x1_0000);
  }

  lemma FromLe16Inverse(b: Bytes)
    requires |b| == 2
    ensures Le16(FromLe16(b)) == b
  {
  }

  lemma FromLe32Inverse(b: Bytes)
    requires |b| == 4
    ensures Le32(FromLe32(b)) == b
  {
    var lo: int, hi: int := FromLe16(b[..2]), FromLe16(b[2..]);
    FromLe16Inverse(b[..2]);
    FromLe16Inverse(b[2..]);
    assert (lo + 0x1_0000 * hi) % 0x1_0000 == lo && (lo + 0x1_0000 * hi) / 0x1_0000 == hi;
    assert b == b[..2] + b[2..];
  }

  /** Unmarshal inverts Marshal, whatever follows the header. */
  lemma DecodeEncode(h: Header, rest: Bytes)
    ensures Decode(Encode(h) + rest) == h
  {
    var b := Encode(h) + rest;
    Le16Inverse(h.sequence);
    Le32Inverse(h.payloadLen);
    Le32Inverse(h.toId);
    hide Le16, Le32, FromLe16, FromLe32;
    assert b[0..2] == Le16(h.sequence);
    assert b[2..6] == Le32(h.payloadLen);
    assert b[7..11] == Le32(h.toId);
  }

  /** Marshal inverts Unmarshal: every twelve bytes are some header. */
  lemma EncodeDecode(b: Bytes)
    requires |b| == HEADER_SIZE
    ensures Encode(Decode(b)) == b
  {
    FromLe16Inverse(b[0..2]);
    FromLe32Inverse(b[2..6]);
    FromLe32Inverse(b[7..11]);
    hide Le16, Le32, FromLe16, FromLe32;
    assert b == b[0..2] + b[2..6] + [b[6]] + b[7..11] + [b[11]];
  }

  /** The number that bytes stand for, least significant first. */
  function LittleEndian(b: Bytes): nat {
    if b == [] then 0 else b[0] + 0x100 * LittleEndian(b[1..])
  }

  lemma Le16Value(v: U16)
    ensures LittleEndian(Le16(v)) == v
  {
    var b := Le16(v);
    assert b[1..] == [v / 0x100] && b[1..][1..] == [];
    assert LittleEndian(b[1..]) == v / 0x100;
  }

  lemma Le32Value(v: U32)
    ensures LittleEndian(Le32(v)) == v
  {
    var lo, hi := v % 0x1_0000, v / 0x1_0000;
    var b := Le32(v);
    Le16Value(hi);
    assert b[1..][1..] == Le16(hi);
    assert b[0] == lo % 0x100 && b[1..][0] == lo / 0x100;
  }

  /** Where the fields of a header are: bytes 0-1, 2-5, 6, 7-10 and 11. */
  lemma EncodeLayout(h: Header)
    ensures var e := Encode(h);
      && LittleEndian(e[0..2]) == h.sequence && LittleEndian(e[2..6]) == h.payloadLen && e[6] == h.cmd
      && LittleEndian(e[7..11]) == h.toId && e[11] == h.reserved
  {
    var e := Encode(h);
    Le16Value(h.sequence);
    Le32Value(h.payloadLen);
    Le32Value(h.toId);
    Le32Inverse(h.payloadLen);
    Le32Inverse(h.toId);
    hide Le16, Le32;
    assert |Le16(h.sequence)| == 2 by { Le16Inverse(h.sequence); }
    assert e[0..2] == Le16(h.sequence) && e[2..6] == Le32(h.payloadLen) && e[7..11] == Le32(h.toId);
  }

  /** Writes the header into the first twelve places of a buffer and nothing else. */
  method MarshalInto(h: Header, buf: array<Byte>)
    requires buf.Length >= HEADER_SIZE
    modifies buf
    ensures buf[..HEADER_SIZE] == Encode(h) && buf[HEADER_SIZE..] == old(buf[HEADER_SIZE..])
  {
    hide Le16, Le32;
    ghost var rest := buf[HEADER_SIZE..];
    PutUint16(buf, 0, h.sequence);
    PutUint32(buf, 2, h.payloadLen);
    buf[6] := h.cmd;
    PutUint32(buf, 7, h.toId);
    buf[11] := h.reserved;
    ghost var b := buf[..];
    assert b[0..2] == Le16(h.sequence) && b[2..6] == Le32(h.payloadLen) && b[7..11] == Le32(h.toId);
    HeaderParts(b);
    assert buf[HEADER_SIZE..] == rest;
    assert buf[..HEADER_SIZE] == b[..HEADER_SIZE];
  }

  lemma HeaderParts(b: Bytes)
    requires |b| >= HEADER_SIZE
    ensures b[..HEADER_SIZE] == b[0..2] + b[2..6] + [b[6]] + b[7..11] + [b[11]]
  {
  }

  method PutUint16(buf: array<Byte>, at: nat, v: U16)
    requires at + 2 <= buf.Length
    modifies buf
    ensures buf[at..at + 2] == Le16(v)
    ensures forall i | 0 <= i < buf.Length && !(at <= i < at + 2) :: buf[i] == old(buf[i])
  {
    buf[at] := v % 0x100;
    buf[at + 1] := v / 0x100;
  }

  method PutUint32(buf: array<Byte>, at: nat, v: U32)
    requires at + 4 <= buf.Length
    modifies buf
    ensures buf[at..at + 4] == Le32(v)
    ensures forall i | 0 <= i < buf.Length && !(at <= i < at + 4) :: buf[i] == old(buf[i])
  {
    PutUint16(buf, at, v % 0x1_0000);
    PutUint16(buf, at + 2, v / 0x1_0000);
    assert buf[at..at + 4] == buf[at..at + 2] + buf[at + 2..at + 4];
    assert buf[at..at + 2] == Le16(v % 0x1_0000);
  }

  method Marshal(h: Header) returns (buf: array<Byte>)
    ensures fresh(buf) && buf[..] == Encode(h)
  {
    buf := new Byte[HEADER_SIZE](_ => 0);
    MarshalInto(h, buf);
    assert buf[..] == buf[..HEADER_SIZE];
  }

  /** Fails exactly on fewer than twelve bytes. */
  method Unmarshal(data: Bytes) returns (r: Option<Header>)
    ensures r.None? <==> |data| < HEADER_SIZE
    ensures r.Some? ==> Encode(r.value) == data[..HEADER_SIZE]
  {
    if |data| < HEADER_SIZE {
      return None;
    }
    r := Some(Decode(data));
    EncodeDecode(data[..HEADER_SIZE]);
    assert Decode(data[..HEADER_SIZE]) == Decode(data) by { SamePrefix(data); }
  }

  lemma SamePrefix(data: Bytes)
    requires |data| >= HEADER_SIZE
    ensures Decode(data[..HEADER_SIZE]) == Decode(data)
  {
    var b := data[..HEADER_SIZE];
    hide FromLe16, FromLe32;
    assert b[0..2] == data[0..2] && b[2..6] == data[2..6] && b[7..11] == data[7..11];
  }
}
