/** Netlink messages and attributes (section 2.3.2 of RFC 3549): building and walking them.
    internal/netlink/socket.go, internal/netlink/route.go, internal/netlink/nftable.go. */
module Netlink {
  import opened Bytes
  import opened Bits
  import opened Digits

  const HDRLEN: nat := 16
  const NLMSG_ERROR: uint16 := 2
  const NLMSG_DONE: uint16 := 3
  const NLA_F_NESTED: uint16 := 0x8000

  /** (n + 3) &^ 3 */
  function Align4(n: nat): (r: nat)
    ensures n <= r < n + 4 && r % 4 == 0
  {
    (n + 3) - (n + 3) % 4
  }

  function Zeros(n: nat): (b: seq<byte>)
    ensures |b| == n
  {
    seq(n, _ => 0)
  }

  // ---- Messages ----

  datatype Msg = Msg(kind: uint16, flags: uint16, sequence: uint32, payload: seq<byte>)

  /** nlMsg: the length field is a uint32. */
  function NlMsg(m: Msg): (b: seq<byte>)
    ensures |b| == HDRLEN + |m.payload|
  {
    LittleEndian(HDRLEN + |m.payload|, 4) + LittleEndian(m.kind, 2) + LittleEndian(m.flags, 2)
    + LittleEndian(m.sequence, 4) + LittleEndian(0, 4) + m.payload
  }

  function MsgLength(b: seq<byte>): uint32
    requires |b| >= HDRLEN
  {
    ReadNative32(b[0..4])
  }

  /** The message at the front of a buffer whose length field is in range. */
  function FrontMsg(b: seq<byte>): Msg
    requires |b| >= HDRLEN && HDRLEN <= MsgLength(b) <= |b|
  {
    Msg(ReadNative16(b[4..6]), ReadNative16(b[6..8]), ReadNative32(b[8..12]), b[HDRLEN..MsgLength(b)])
  }

  /** Whether the receive loops step over the message at the front. */
  predicate FrontFits(b: seq<byte>)
    requires |b| >= HDRLEN
  {
    HDRLEN <= MsgLength(b) && Align4(MsgLength(b)) <= |b|
  }

  /** All messages of a datagram up to its end or to the first length that does not fit. */
  datatype Split = Split(messages: seq<Msg>, clean: bool)

  function Messages(b: seq<byte>): Split
    decreases |b|
  {
    if |b| < HDRLEN then Split([], true)
    else if !FrontFits(b) then Split([], false)
    else
      var rest := Messages(b[Align4(MsgLength(b))..]);
      Split([FrontMsg(b)] + rest.messages, rest.clean)
  }

  /** The concatenation that ApplyMasquerade and DeleteMasqueradeTable send. */
  function Batch(messages: seq<Msg>): seq<byte>
  {
    if messages == [] then [] else NlMsg(messages[0]) + Batch(messages[1..])
  }

  predicate Sendable(m: Msg)
  {
    |m.payload| % 4 == 0 && HDRLEN + |m.payload| < TWO_32
  }

  lemma NlMsgFields(m: Msg, rest: seq<byte>)
    requires HDRLEN + |m.payload| < TWO_32
    ensures MsgLength(NlMsg(m) + rest) == HDRLEN + |m.payload|
    ensures FrontMsg(NlMsg(m) + rest) == m
  {
    var b := NlMsg(m) + rest;
    Widths();
    LittleEndianReads(HDRLEN + |m.payload|, 4);
    LittleEndianReads(m.kind, 2);
    LittleEndianReads(m.flags, 2);
    LittleEndianReads(m.sequence, 4);
    assert b[0..4] == LittleEndian(HDRLEN + |m.payload|, 4);
    assert b[4..6] == LittleEndian(m.kind, 2) && b[6..8] == LittleEndian(m.flags, 2);
    assert b[8..12] == LittleEndian(m.sequence, 4);
    assert b[HDRLEN..HDRLEN + |m.payload|] == m.payload;
  }

  /** The header on the wire, in the host's byte order: length with header, type, flags, sequence, port 0. */
  lemma NlMsgLayout(m: Msg)
    ensures
      var b := NlMsg(m);
      && |b| == 16 + |m.payload| && b[16..] == m.payload && b[12..16] == [0, 0, 0, 0]
      && LeastSignificantFirst(b[0..4], 16 + |m.payload|) && LeastSignificantFirst(b[4..6], m.kind)
      && LeastSignificantFirst(b[6..8], m.flags) && LeastSignificantFirst(b[8..12], m.sequence)
  {
    hide LittleEndian, LeastSignificantFirst;
    var b := NlMsg(m);
    LittleEndianDigits(16 + |m.payload|, 4);
    LittleEndianDigits(m.kind, 2);
    LittleEndianDigits(m.flags, 2);
    LittleEndianDigits(m.sequence, 4);
    NoPort();
    assert b[0..4] == LittleEndian(16 + |m.payload|, 4) && b[4..6] == LittleEndian(m.kind, 2);
    assert b[6..8] == LittleEndian(m.flags, 2) && b[8..12] == LittleEndian(m.sequence, 4);
    assert b[12..16] == LittleEndian(0, 4) && b[16..] == m.payload;
  }

  lemma NoPort()
    ensures LittleEndian(0, 4) == [0, 0, 0, 0]
  {
    assert LittleEndian(0, 0) == [] && LittleEndian(0, 1) == [0];
    assert LittleEndian(0, 2) == [0] + LittleEndian(0, 1) && LittleEndian(0, 3) == [0] + LittleEndian(0, 2);
    assert LittleEndian(0, 4) == [0] + LittleEndian(0, 3);
  }

  /** Messages with 4-aligned payloads, and then whatever follows them. */
  lemma {:induction false} BatchThen(messages: seq<Msg>, tail: seq<byte>)
    requires forall i :: 0 <= i < |messages| ==> Sendable(messages[i])
    ensures Messages(Batch(messages) + tail) == Split(messages + Messages(tail).messages, Messages(tail).clean)
  {
    hide Messages, NlMsg, Sendable;
    if messages == [] {
      assert Batch(messages) + tail == tail && messages + Messages(tail).messages == Messages(tail).messages;
    } else {
      SplitFirst(messages[0], Batch(messages[1..]) + tail);
      BatchThen(messages[1..], tail);
      assert Batch(messages) + tail == NlMsg(messages[0]) + (Batch(messages[1..]) + tail);
      assert messages + Messages(tail).messages == [messages[0]] + (messages[1..] + Messages(tail).messages);
    }
  }

  lemma SplitFirst(m: Msg, rest: seq<byte>)
    requires Sendable(m)
    ensures Messages(NlMsg(m) + rest) == Split([m] + Messages(rest).messages, Messages(rest).clean)
  {
    hide NlMsg;
    NlMsgFields(m, rest);
    var b := NlMsg(m) + rest;
    assert Align4(MsgLength(b)) == |NlMsg(m)|;
    assert b[|NlMsg(m)|..] == rest;
  }

  /** Any concatenation of messages with 4-aligned payloads is split back into the same list. */
  lemma {:induction false} BatchSplits(messages: seq<Msg>)
    requires forall i :: 0 <= i < |messages| ==> Sendable(messages[i])
    ensures Messages(Batch(messages)) == Split(messages, true)
  {
    hide Messages, NlMsg, Sendable;
    if messages == [] {
      EmptySplits();
    } else {
      SplitFirst(messages[0], Batch(messages[1..]));
      BatchSplits(messages[1..]);
      assert messages == [messages[0]] + messages[1..];
    }
  }

  lemma EmptySplits()
    ensures Messages([]) == Split([], true)
  {
  }

  // ---- Attributes ----

  datatype Attr = Attr(kind: uint16, value: seq<byte>)

  /** putAttr: the length field is a uint16, the padding is zero. */
  function PutAttr(buf: seq<byte>, kind: uint16, value: seq<byte>): (b: seq<byte>)
    ensures |b| == |buf| + Align4(4 + |value|)
  {
    buf + LittleEndian(4 + |value|, 2) + LittleEndian(kind, 2) + value + Zeros(Align4(4 + |value|) - (4 + |value|))
  }

  function PutNestAttr(buf: seq<byte>, kind: uint16, nested: seq<byte>): (b: seq<byte>)
    ensures |b| == |buf| + Align4(4 + |nested|)
  {
    NestedKindBound(kind);
    PutAttr(buf, Or(kind, NLA_F_NESTED), nested)
  }

  lemma NestedKindBound(kind: uint16)
    ensures Or(kind, NLA_F_NESTED) < TWO_16
  {
    Pow2Adds(8, 8);
    assert Pow2(8) == 256 by {
      assert Pow2(8) == 2 * Pow2(7) && Pow2(7) == 2 * Pow2(6) && Pow2(6) == 2 * Pow2(5);
      assert Pow2(5) == 2 * Pow2(4) && Pow2(4) == 2 * Pow2(3) && Pow2(3) == 2 * Pow2(2);
    }
    OrBound(kind, NLA_F_NESTED, 16);
  }

  function PutAll(buf: seq<byte>, attrs: seq<Attr>): seq<byte>
  {
    if attrs == [] then buf
    else PutAttr(PutAll(buf, attrs[..|attrs| - 1]), attrs[|attrs| - 1].kind, attrs[|attrs| - 1].value)
  }

  predicate FitsUint16(a: Attr)
  {
    4 + |a.value| < TWO_16
  }

  function AttrLength(b: seq<byte>): uint16
    requires |b| >= 4
  {
    ReadNative16(b[0..2])
  }

  function AttrKind(b: seq<byte>): uint16
    requires |b| >= 4
  {
    ReadNative16(b[2..4])
  }

  /** The attribute walk: stops at the end or at the first length out of range. */
  function WalkAttrs(b: seq<byte>): seq<Attr>
    decreases |b|
  {
    if |b| < 4 then []
    else
      var length := AttrLength(b);
      if length < 4 || length > |b| then []
      else
        var next := Align4(length);
        [Attr(AttrKind(b), b[4..length])] + (if next <= |b| then WalkAttrs(b[next..]) else [])
  }

  lemma AttrFields(kind: uint16, value: seq<byte>, rest: seq<byte>)
    requires 4 + |value| < TWO_16
    ensures
      var b := PutAttr([], kind, value) + rest;
      && AttrLength(b) == 4 + |value| && AttrKind(b) == kind && b[4..4 + |value|] == value
      && b[Align4(4 + |value|)..] == rest
  {
    var b := PutAttr([], kind, value) + rest;
    Widths();
    LittleEndianReads(4 + |value|, 2);
    LittleEndianReads(kind, 2);
    assert b[0..2] == LittleEndian(4 + |value|, 2) && b[2..4] == LittleEndian(kind, 2);
  }

  /** Attribute buffers stay 4-aligned, and an append is a concatenation. */
  lemma PutAttrAppends(buf: seq<byte>, kind: uint16, value: seq<byte>)
    ensures PutAttr(buf, kind, value) == buf + PutAttr([], kind, value)
    ensures |PutAttr(buf, kind, value)| % 4 == |buf| % 4
  {
    var body := LittleEndian(4 + |value|, 2) + LittleEndian(kind, 2) + value
      + Zeros(Align4(4 + |value|) - (4 + |value|));
    assert PutAttr(buf, kind, value) == buf + body;
    assert PutAttr([], kind, value) == body;
  }

  /** One attribute on the wire: length without padding, type, value, zeros up to the next multiple of 4. */
  lemma AttrLayout(kind: uint16, value: seq<byte>)
    ensures
      var b := PutAttr([], kind, value);
      && |b| % 4 == 0 && 4 + |value| <= |b| < 8 + |value| && b[4..4 + |value|] == value
      && LeastSignificantFirst(b[0..2], 4 + |value|) && LeastSignificantFirst(b[2..4], kind)
      && forall i :: 4 + |value| <= i < |b| ==> b[i] == 0
  {
    hide LittleEndian, LeastSignificantFirst;
    var b := PutAttr([], kind, value);
    LittleEndianDigits(4 + |value|, 2);
    LittleEndianDigits(kind, 2);
    assert b[0..2] == LittleEndian(4 + |value|, 2) && b[2..4] == LittleEndian(kind, 2);
  }

  lemma WalkFirst(a: Attr, rest: seq<byte>)
    requires FitsUint16(a)
    ensures WalkAttrs(PutAttr([], a.kind, a.value) + rest) == [a] + WalkAttrs(rest)
  {
    hide PutAttr;
    AttrFields(a.kind, a.value, rest);
  }

  /** The attribute walk recovers everything that was put, then goes on with what follows. */
  lemma {:induction false} WalkRecovers(attrs: seq<Attr>, rest: seq<byte>)
    requires forall i :: 0 <= i < |attrs| ==> FitsUint16(attrs[i])
    ensures WalkAttrs(PutAll([], attrs) + rest) == attrs + WalkAttrs(rest)
    ensures |PutAll([], attrs)| % 4 == 0
    decreases |attrs|
  {
    hide WalkAttrs, PutAttr, FitsUint16;
    if attrs == [] {
      assert [] + rest == rest && [] + WalkAttrs(rest) == WalkAttrs(rest);
    } else {
      var prefix, last := attrs[..|attrs| - 1], attrs[|attrs| - 1];
      var one := PutAttr([], last.kind, last.value);
      PutAttrAppends(PutAll([], prefix), last.kind, last.value);
      WalkFirst(last, rest);
      WalkRecovers(prefix, one + rest);
      assert PutAll([], attrs) + rest == PutAll([], prefix) + (one + rest);
      assert attrs + WalkAttrs(rest) == prefix + ([last] + WalkAttrs(rest));
    }
  }

  // ---- Route messages ----

  const RTM_NEWROUTE: uint16 := 24
  const RTA_DST: uint16 := 1
  const RTA_OIF: uint16 := 4
  const RTA_GATEWAY: uint16 := 5
  const AF_INET: byte := 2
  const RT_TABLE_MAIN: byte := 254
  const RTPROT_STATIC: byte := 4
  const RTN_UNICAST: byte := 1

  /** rtgen over newBaseRtmsg with DstLen and Scope set. */
  function RouteHeader(dstLen: byte, scope: byte): (b: seq<byte>)
    ensures |b| == 12
  {
    [AF_INET, dstLen, 0, 0, RT_TABLE_MAIN, RTPROT_STATIC, scope, RTN_UNICAST] + LittleEndian(0, 4)
  }

  function RouteAttrs(dstLen: byte, dst: Option<seq<byte>>, gateway: Option<seq<byte>>, ifIndex: int): seq<Attr>
  {
    (if dst.Some? && dstLen > 0 then [Attr(RTA_DST, dst.value)] else [])
    + (if gateway.Some? then [Attr(RTA_GATEWAY, gateway.value)] else [])
    + (if ifIndex > 0 then [Attr(RTA_OIF, LittleEndian(ifIndex, 4))] else [])
  }

  /** The route header on the wire: IPv4, main table, static, unicast, everything else 0. */
  lemma RouteHeaderLayout(dstLen: byte, scope: byte)
    ensures RouteHeader(dstLen, scope) == [2, dstLen, 0, 0, 254, 4, scope, 1, 0, 0, 0, 0]
  {
    hide LittleEndian;
    NoPort();
  }

  lemma PutNone()
    ensures PutAll([], []) == []
  {
  }

  lemma PutOneMore(attrs: seq<Attr>, kind: uint16, value: seq<byte>)
    ensures PutAll([], attrs + [Attr(kind, value)]) == PutAttr(PutAll([], attrs), kind, value)
  {
    assert (attrs + [Attr(kind, value)])[..|attrs|] == attrs;
  }

  method BuildRoutePayload(dstLen: byte, scope: byte, dst: Option<seq<byte>>, gateway: Option<seq<byte>>, ifIndex: int)
    returns (payload: seq<byte>)
    ensures payload == RouteHeader(dstLen, scope) + PutAll([], RouteAttrs(dstLen, dst, gateway, ifIndex))
  {
    hide PutAttr, PutAll, LittleEndian;
    var attrs := [];
    ghost var put: seq<Attr> := [];
    PutNone();
    if dst.Some? && dstLen > 0 {
      PutOneMore(put, RTA_DST, dst.value);
      attrs := PutAttr(attrs, RTA_DST, dst.value);
      put := put + [Attr(RTA_DST, dst.value)];
    }
    if gateway.Some? {
      PutOneMore(put, RTA_GATEWAY, gateway.value);
      attrs := PutAttr(attrs, RTA_GATEWAY, gateway.value);
      put := put + [Attr(RTA_GATEWAY, gateway.value)];
    }
    if ifIndex > 0 {
      var oif := LittleEndian(ifIndex, 4);
      PutOneMore(put, RTA_OIF, oif);
      attrs := PutAttr(attrs, RTA_OIF, oif);
      put := put + [Attr(RTA_OIF, oif)];
    }
    assert put == RouteAttrs(dstLen, dst, gateway, ifIndex);
    return RouteHeader(dstLen, scope) + attrs;
  }

  lemma EmptyWalk()
    ensures WalkAttrs([]) == []
  {
  }

  /** What a walker gets back from a route payload: every attribute that was put in, in order. */
  lemma RoutePayloadWalks(dstLen: byte, scope: byte, dst: Option<seq<byte>>, gateway: Option<seq<byte>>, ifIndex: int)
    requires dst.Some? ==> 4 + |dst.value| < TWO_16
    requires gateway.Some? ==> 4 + |gateway.value| < TWO_16
    ensures
      var attrs := RouteAttrs(dstLen, dst, gateway, ifIndex);
      var payload := RouteHeader(dstLen, scope) + PutAll([], attrs);
      && |payload| % 4 == 0 && payload[1] == dstLen && payload[4] == RT_TABLE_MAIN
      && WalkAttrs(payload[12..]) == attrs
  {
    hide PutAll, WalkAttrs;
    var attrs := RouteAttrs(dstLen, dst, gateway, ifIndex);
    var payload := RouteHeader(dstLen, scope) + PutAll([], attrs);
    EmptyWalk();
    WalkRecovers(attrs, []);
    assert payload[12..] == PutAll([], attrs) + [];
    assert attrs + WalkAttrs([]) == attrs;
  }
}
