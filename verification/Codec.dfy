/** Message framing: internal/protocol/message.go, codec.go. */
module Codec {
  import opened Bytes
  import opened Digits

  const ALOHA: byte := 1
  const WELCOME: byte := 2
  const DATA: byte := 3
  const KEEPALIVE: byte := 4

  const PROTOCOL_VERSION: byte := 1
  const HEADER_LEN: nat := 20
  const TAG_LEN: nat := 16
  const OUTER_MTU: nat := 1500
  const IPV4_HEADER_LEN: nat := 20
  const UDP_HEADER_LEN: nat := 8
  const MAX_PAYLOAD: nat := OUTER_MTU - IPV4_HEADER_LEN - UDP_HEADER_LEN - HEADER_LEN - TAG_LEN

  datatype Header = Header(version: byte, kind: byte, flags: byte, reserved: byte, peerID: uint64, sequence: uint64)
  datatype Message = Message(header: Header, payload: seq<byte>)

  datatype CodecError =
    | InvalidType
    | PayloadTooLarge
    | ShortBuffer
    | BadVersion
    | PeerIDMustBeZero
    | PeerIDMustNotBeZero
    | SequenceMustNotBeZero
    | AuthenticationFailed

  datatype Result<+T> = Ok(value: T) | Err(error: CodecError)

  predicate ValidType(kind: byte)
  {
    kind == ALOHA || kind == WELCOME || kind == DATA || kind == KEEPALIVE
  }

  function HeaderBytes(h: Header): (b: seq<byte>)
    ensures |b| == HEADER_LEN
  {
    [h.version, h.kind, h.flags, h.reserved] + BigEndian(h.peerID, 8) + BigEndian(h.sequence, 8)
  }

  function PeekHeader(buf: seq<byte>): Result<Header>
  {
    if |buf| < HEADER_LEN then Err(ShortBuffer)
    else Ok(Header(buf[0], buf[1], buf[2], buf[3], ReadUint64(buf[4..12]), ReadUint64(buf[12..HEADER_LEN])))
  }

  function Encode(m: Message): Result<seq<byte>>
  {
    if !ValidType(m.header.kind) then Err(InvalidType)
    else if |m.payload| > MAX_PAYLOAD then Err(PayloadTooLarge)
    else Ok(HeaderBytes(m.header.(version := PROTOCOL_VERSION)) + m.payload)
  }

  function Decode(buf: seq<byte>): Result<Message>
  {
    if |buf| < HEADER_LEN then Err(ShortBuffer)
    else
      var header := PeekHeader(buf).value;
      if |buf| - HEADER_LEN > MAX_PAYLOAD then Err(PayloadTooLarge)
      else if header.version != PROTOCOL_VERSION then Err(BadVersion)
      else if !ValidType(header.kind) then Err(InvalidType)
      else Ok(Message(header, buf[HEADER_LEN..]))
  }

  /** Reading the header that HeaderBytes wrote, whatever follows it. */
  lemma PeekReads(h: Header, rest: seq<byte>)
    ensures PeekHeader(HeaderBytes(h) + rest) == Ok(h)
  {
    Widths();
    BigEndianReads(h.peerID, 8);
    BigEndianReads(h.sequence, 8);
    var b := HeaderBytes(h) + rest;
    assert b[4..12] == BigEndian(h.peerID, 8);
    assert b[12..20] == BigEndian(h.sequence, 8);
  }

  /** Every 20-byte prefix is the encoding of the header read from it. */
  lemma PeekWrites(buf: seq<byte>)
    requires |buf| >= HEADER_LEN
    ensures HeaderBytes(PeekHeader(buf).value) == buf[..HEADER_LEN]
  {
    BigEndianWrites(buf[4..12]);
    BigEndianWrites(buf[12..20]);
    assert buf[..20] == [buf[0], buf[1], buf[2], buf[3]] + buf[4..12] + buf[12..20];
  }

  /** The wire format, byte by byte: version 1, type 1 to 4, flags, reserved, then peer id and sequence with the most
      significant byte first, then at most 1436 bytes of payload. */
  lemma WireFormat(m: Message)
    ensures Encode(m).Ok? <==> 1 <= m.header.kind <= 4 && |m.payload| <= 1436
    ensures Encode(m).Ok? ==>
              var b := Encode(m).value;
              && |b| == 20 + |m.payload| && b[20..] == m.payload
              && b[0] == 1 && b[1] == m.header.kind && b[2] == m.header.flags && b[3] == m.header.reserved
              && MostSignificantFirst(b[4..12], m.header.peerID) && MostSignificantFirst(b[12..20], m.header.sequence)
  {
    hide BigEndian, MostSignificantFirst;
    if Encode(m).Ok? {
      var b := Encode(m).value;
      assert b[20..] == m.payload;
      assert b[4..12] == BigEndian(m.header.peerID, 8) && b[12..20] == BigEndian(m.header.sequence, 8);
      BigEndianDigits(m.header.peerID, 8);
      BigEndianDigits(m.header.sequence, 8);
    }
  }

  /** Decode accepts a buffer exactly when its length, version byte and type byte are in range. */
  lemma DecodeAcceptsIff(buf: seq<byte>)
    ensures Decode(buf).Ok? <==> 20 <= |buf| <= 1456 && buf[0] == 1 && 1 <= buf[1] <= 4
    ensures |buf| < 20 ==> Decode(buf) == Err(ShortBuffer)
    ensures |buf| > 1456 ==> Decode(buf) == Err(PayloadTooLarge)
    ensures 20 <= |buf| <= 1456 && buf[0] != 1 ==> Decode(buf) == Err(BadVersion)
    ensures 20 <= |buf| <= 1456 && buf[0] == 1 && !(1 <= buf[1] <= 4) ==> Decode(buf) == Err(InvalidType)
  {
    hide FromBigEndian;
  }

  lemma DecodeInvertsEncode(m: Message)
    requires Encode(m).Ok?
    ensures Decode(Encode(m).value) == Ok(m.(header := m.header.(version := PROTOCOL_VERSION)))
  {
    PeekReads(m.header.(version := PROTOCOL_VERSION), m.payload);
    assert Encode(m).value[HEADER_LEN..] == m.payload;
  }

  lemma EncodeInvertsDecode(buf: seq<byte>)
    requires Decode(buf).Ok?
    ensures Encode(Decode(buf).value) == Ok(buf)
  {
    PeekWrites(buf);
    assert buf == buf[..HEADER_LEN] + buf[HEADER_LEN..];
  }

  /** Decode accepts exactly the buffers that Encode produces. */
  lemma DecodeAcceptsEncodings(buf: seq<byte>)
    ensures Decode(buf).Ok? <==> exists m: Message :: Encode(m) == Ok(buf)
  {
    if Decode(buf).Ok? {
      EncodeInvertsDecode(buf);
      var m := Decode(buf).value;
      assert Encode(m) == Ok(buf);
    }
    if m: Message :| Encode(m) == Ok(buf) {
      DecodeInvertsEncode(m);
    }
  }

  // ---- The same two functions, filling a buffer in place ----

  /** Go's copy(dst[at:], src). */
  method CopyInto(dst: array<byte>, at: nat, src: seq<byte>)
    requires at + |src| <= dst.Length
    modifies dst
    ensures dst[at..at + |src|] == src
    ensures dst[..at] == old(dst[..at]) && dst[at + |src|..] == old(dst[at + |src|..])
  {
    for i := 0 to |src|
      invariant dst[at..at + i] == src[..i]
      invariant dst[..at] == old(dst[..at]) && dst[at + i..] == old(dst[at + i..])
    {
      dst[at + i] := src[i];
      assert dst[at..at + i + 1] == dst[at..at + i] + [src[i]];
      assert dst[at + i + 1..] == old(dst[at + i..])[1..];
    }
  }

  /** A new buffer holding head then tail (make, copy, copy). */
  method Concat(head: seq<byte>, tail: seq<byte>) returns (buf: array<byte>)
    ensures fresh(buf) && buf[..] == head + tail
  {
    buf := new byte[|head| + |tail|](_ => 0);
    CopyInto(buf, 0, head);
    CopyInto(buf, |head|, tail);
    assert buf[..] == buf[..|head|] + buf[|head|..|head| + |tail|];
    assert buf[..|head|] == head;
  }

  method EncodeBuffer(m: Message) returns (r: Result<array<byte>>)
    ensures Encode(m).Ok? ==> r.Ok? && fresh(r.value) && r.value[..] == Encode(m).value
    ensures Encode(m).Err? ==> r == Err(Encode(m).error)
  {
    if !ValidType(m.header.kind) {
      return Err(InvalidType);
    }
    if |m.payload| > MAX_PAYLOAD {
      return Err(PayloadTooLarge);
    }
    var buf := new byte[HEADER_LEN + |m.payload|](_ => 0);
    buf[0] := PROTOCOL_VERSION;
    buf[1] := m.header.kind;
    buf[2] := m.header.flags;
    buf[3] := m.header.reserved;
    CopyInto(buf, 4, BigEndian(m.header.peerID, 8));
    ghost var first := buf[..12];
    assert first == [PROTOCOL_VERSION, m.header.kind, m.header.flags, m.header.reserved]
      + BigEndian(m.header.peerID, 8);
    CopyInto(buf, 12, BigEndian(m.header.sequence, 8));
    ghost var head := buf[..HEADER_LEN];
    assert head == first + buf[12..20];
    CopyInto(buf, HEADER_LEN, m.payload);
    assert buf[..] == buf[..HEADER_LEN] + buf[HEADER_LEN..HEADER_LEN + |m.payload|];
    return Ok(buf);
  }

  method DecodeBuffer(buf: array<byte>) returns (r: Result<Message>)
    ensures r == Decode(buf[..])
  {
    if buf.Length < HEADER_LEN {
      return Err(ShortBuffer);
    }
    var header := PeekHeader(buf[..]).value;
    var payloadLen := buf.Length - HEADER_LEN;
    if payloadLen > MAX_PAYLOAD {
      return Err(PayloadTooLarge);
    }
    if header.version != PROTOCOL_VERSION {
      return Err(BadVersion);
    }
    if !ValidType(header.kind) {
      return Err(InvalidType);
    }
    var payload := new byte[payloadLen](_ => 0);
    CopyInto(payload, 0, buf[HEADER_LEN..]);
    assert payload[..] == payload[0..payloadLen];
    return Ok(Message(header, payload[..]));
  }
}
