/** Inner packets as their senders build them (section 3.1 of RFC 791), against extractIPv4Dst of
    internal/server/server.go. */
module Ipv4 {
  import opened Bytes
  import opened Digits
  import opened Addressing

  type nibble = x: int | 0 <= x < 16

  /** The fixed part of a header; words is the header length in 32-bit words. */
  datatype IPHeader = IPHeader(
    version: nibble,
    words: nibble,
    tos: byte,
    total: uint16,
    id: uint16,
    fragment: uint16,
    ttl: byte,
    protocol: byte,
    checksum: uint16,
    source: uint32,
    destination: uint32)

  /** The header on the wire: every number in network byte order, the source address before the destination. */
  function Octets(h: IPHeader): (b: seq<byte>)
    ensures |b| == 20
  {
    [16 * h.version + h.words, h.tos] + BigEndian(h.total, 2) + BigEndian(h.id, 2) + BigEndian(h.fragment, 2)
    + [h.ttl, h.protocol] + BigEndian(h.checksum, 2) + BigEndian(h.source, 4) + BigEndian(h.destination, 4)
  }

  /** An IPv4 header with room for its options, inside a packet that it does not overrun. */
  predicate Whole(h: IPHeader, rest: seq<byte>)
  {
    h.version == 4 && 5 <= h.words && 4 * h.words <= h.total <= 20 + |rest|
  }

  lemma OctetsRead(h: IPHeader, rest: seq<byte>)
    ensures
      var b := Octets(h) + rest;
      && b[0] / 16 == h.version && b[0] % 16 == h.words && ReadUint16(b[2..4]) == h.total
      && ReadUint32(b[16..20]) == h.destination
  {
    Widths();
    BigEndianReads(h.total, 2);
    BigEndianReads(h.destination, 4);
    var b := Octets(h) + rest;
    assert b[2..4] == BigEndian(h.total, 2) && b[16..20] == BigEndian(h.destination, 4);
  }

  /** What the server makes of an inner packet, for all fields and whatever follows the fixed header: other versions are
      skipped, a header or packet cut short is an error, and everything else goes to the destination field. */
  lemma DestinationIsRead(h: IPHeader, rest: seq<byte>)
    ensures
      ExtractDst(Octets(h) + rest) ==
      if h.version != 4 then Unsupported
      else if Whole(h, rest) then Dst(h.destination)
      else Malformed
  {
    hide BigEndian, FromBigEndian;
    OctetsRead(h, rest);
  }

  /** The header that a reader of these twenty bytes sees. */
  function HeaderOf(b: seq<byte>): IPHeader
    requires |b| >= 20
  {
    IPHeader(b[0] / 16, b[0] % 16, b[1], ReadUint16(b[2..4]), ReadUint16(b[4..6]), ReadUint16(b[6..8]), b[8], b[9],
             ReadUint16(b[10..12]), ReadUint32(b[12..16]), ReadUint32(b[16..20]))
  }

  lemma Pieces(b: seq<byte>)
    requires |b| >= 20
    ensures b[..20] == [b[0], b[1]] + b[2..4] + b[4..6] + b[6..8] + [b[8], b[9]] + b[10..12] + b[12..16] + b[16..20]
  {
  }

  /** Every packet of at least 20 bytes is such a header with something after it; shorter ones are errors. */
  lemma EveryPacketHasHeader(packet: seq<byte>)
    ensures |packet| < 20 ==> ExtractDst(packet) == Malformed
    ensures |packet| >= 20 ==> packet == Octets(HeaderOf(packet)) + packet[20..]
  {
    if |packet| >= 20 {
      var b := packet;
      hide BigEndian, FromBigEndian;
      BigEndianWrites(b[2..4]);
      BigEndianWrites(b[4..6]);
      BigEndianWrites(b[6..8]);
      BigEndianWrites(b[10..12]);
      BigEndianWrites(b[12..16]);
      BigEndianWrites(b[16..20]);
      Pieces(b);
      assert 16 * (b[0] / 16) + b[0] % 16 == b[0];
      assert Octets(HeaderOf(b)) == b[..20];
      assert b == b[..20] + b[20..];
    }
  }

  /** A datagram with options and body, as RFC 791 lays it out. */
  function Datagram(source: uint32, destination: uint32, options: seq<byte>, protocol: byte, body: seq<byte>)
    : seq<byte>
    requires |options| % 4 == 0 && |options| <= 40 && 20 + |options| + |body| < TWO_16
  {
    Octets(IPHeader(4, 5 + |options| / 4, 0, 20 + |options| + |body|, 0, 0, 64, protocol, 0, source, destination))
    + (options + body)
  }

  /** The sender's own packets all reach the right branch, padded by the link or not. */
  lemma DatagramsAreRouted(source: uint32, destination: uint32, options: seq<byte>, protocol: byte, body: seq<byte>,
                           padding: seq<byte>)
    requires |options| % 4 == 0 && |options| <= 40 && 20 + |options| + |body| < TWO_16
    ensures ExtractDst(Datagram(source, destination, options, protocol, body) + padding) == Dst(destination)
  {
    var h := IPHeader(4, 5 + |options| / 4, 0, 20 + |options| + |body|, 0, 0, 64, protocol, 0, source, destination);
    hide Octets, ExtractDst;
    DestinationIsRead(h, options + body + padding);
    assert Datagram(source, destination, options, protocol, body) + padding == Octets(h) + (options + body + padding);
  }

  /** Twenty bytes from 10.77.0.1 to 10.77.0.2. */
  lemma SmallestPacketIsRouted()
    ensures ExtractDst([0x45, 0, 0, 20, 0, 0, 0, 0, 64, 17, 0, 0, 10, 77, 0, 1, 10, 77, 0, 2]) == Dst(0x0A4D_0002)
  {
    var packet: seq<byte> := [0x45, 0, 0, 20, 0, 0, 0, 0, 64, 17, 0, 0, 10, 77, 0, 1, 10, 77, 0, 2];
    assert packet[2..4] == [0, 20] && packet[16..20] == [10, 77, 0, 2];
    TwoOctets(0, 20);
    FourOctets(10, 77, 0, 2);
  }
}
