/** The four route requests of internal/netlink/route.go, and what they mean to a routing table. */
module NetlinkRequests {
  import opened Bytes
  import opened Netlink
  import opened RouteTable
  import D = DefaultRoute

  const RTM_DELROUTE: uint16 := 25
  const SCOPE_UNIVERSE: byte := 0
  const SCOPE_LINK: byte := 253
  const ACKED: uint16 := 0x5
  const CREATE_NEW: uint16 := 0x605
  const CREATE_OR_REPLACE: uint16 := 0x505

  // ---- The builders ----

  function RoutePayload(dstLen: byte, scope: byte, dst: Option<seq<byte>>, gateway: Option<seq<byte>>, ifIndex: int)
    : seq<byte>
  {
    RouteHeader(dstLen, scope) + PutAll([], RouteAttrs(dstLen, dst, gateway, ifIndex))
  }

  function To4(ip: IPv4): seq<byte>
  {
    BigEndian(ip, 4)
  }

  function BuildAddHostRoute(sequence: uint32, dst: IPv4, gateway: IPv4, ifIndex: int): Msg
  {
    Msg(RTM_NEWROUTE, CREATE_NEW, sequence,
        RoutePayload(32, SCOPE_UNIVERSE, Some(To4(dst)), Some(To4(gateway)), ifIndex))
  }

  function BuildDelHostRoute(sequence: uint32, dst: IPv4, gateway: IPv4, ifIndex: int): Msg
  {
    Msg(RTM_DELROUTE, ACKED, sequence, RoutePayload(32, SCOPE_UNIVERSE, Some(To4(dst)), Some(To4(gateway)), ifIndex))
  }

  function BuildReplaceDefaultRoute(sequence: uint32, ifIndex: int): Msg
  {
    Msg(RTM_NEWROUTE, CREATE_OR_REPLACE, sequence, RoutePayload(0, SCOPE_LINK, None, None, ifIndex))
  }

  function BuildRestoreDefaultRoute(sequence: uint32, gateway: IPv4, ifIndex: int): Msg
  {
    Msg(RTM_NEWROUTE, CREATE_OR_REPLACE, sequence,
        RoutePayload(0, SCOPE_UNIVERSE, None, Some(To4(gateway)), ifIndex))
  }

  // ---- The kernel's reading ----

  /** An address attribute, in network byte order. */
  function Address(value: Option<seq<byte>>): Option<IPv4>
  {
    if value.Some? && |value.value| == 4 then Some(ReadUint32(value.value)) else None
  }

  /** An interface index, in the host's byte order; 0 is none. */
  function Index(value: Option<seq<byte>>): int
  {
    if value.Some? && |value.value| == 4 then ReadNative32(value.value) else 0
  }

  /** The next hop of a route: attribute 5 is the gateway and 4 the interface. A gateway goes with scope 0 and a
      direct route with scope 253. */
  function HopOf(scope: byte, attrs: seq<Attr>): Option<NextHop>
  {
    var gateway, index := Address(D.LastValue(attrs, 5)), Index(D.LastValue(attrs, 4));
    if gateway.Some? then if scope == 0 then Some(Via(gateway.value, index)) else None
    else if scope == 253 then Some(Dev(index)) else None
  }

  /** Performs one datagram with a static (4) unicast (1) IPv4 (2) route of the main table (254). Type 24 with CREATE
      and EXCL adds a host route, with CREATE and REPLACE it sets the default route; type 25 deletes a host route. A
      host route has prefix length 32 and its destination in attribute 1. None is a request that means something else.
      */
  function Perform(k: Kernel, datagram: seq<byte>): Option<(Kernel, bool)>
  {
    var split := Messages(datagram);
    if |split.messages| != 1 || !split.clean then None
    else
      var m := split.messages[0];
      var p := m.payload;
      if |p| < 12 || p[0] != 2 || p[4] != 254 || p[5] != 4 || p[7] != 1 then None
      else
        var attrs := WalkAttrs(p[12..]);
        var hop, dst := HopOf(p[6], attrs), Address(D.LastValue(attrs, 1));
        if hop.None? then None
        else if m.kind == 24 && m.flags == 0x605 && p[1] == 32 && dst.Some? then Some(AddHost(k, dst.value, hop.value))
        else if m.kind == 25 && m.flags == 0x5 && p[1] == 32 && dst.Some? then Some(DelHost(k, dst.value, hop.value))
        else if m.kind == 24 && m.flags == 0x505 && p[1] == 0 && dst.None? then Some(SetDefault(k, hop.value))
        else None
  }

  // ---- What the requests mean ----

  lemma AddressReads(ip: IPv4)
    ensures |To4(ip)| == 4 && Address(Some(To4(ip))) == Some(ip)
  {
    Widths();
    BigEndianReads(ip, 4);
  }

  lemma IndexReads(ifIndex: int)
    requires 0 <= ifIndex < TWO_32
    ensures Index(Some(LittleEndian(ifIndex, 4))) == ifIndex
  {
    Widths();
    LittleEndianReads(ifIndex, 4);
  }

  /** The kernel gets the one message back, with its header fields and attributes. */
  lemma RequestReads(kind: uint16, flags: uint16, sequence: uint32, dstLen: byte, scope: byte, dst: Option<seq<byte>>,
                     gateway: Option<seq<byte>>, ifIndex: int)
    requires dst.Some? ==> |dst.value| == 4
    requires gateway.Some? ==> |gateway.value| == 4
    ensures
      var p := RoutePayload(dstLen, scope, dst, gateway, ifIndex);
      && Messages(NlMsg(Msg(kind, flags, sequence, p))) == Split([Msg(kind, flags, sequence, p)], true)
      && |p| >= 12 && p[0] == 2 && p[1] == dstLen && p[4] == 254 && p[5] == 4 && p[6] == scope && p[7] == 1
      && WalkAttrs(p[12..]) == RouteAttrs(dstLen, dst, gateway, ifIndex)
  {
    hide Messages, NlMsg, PutAll, WalkAttrs, RouteAttrs;
    var p := RoutePayload(dstLen, scope, dst, gateway, ifIndex);
    var m := Msg(kind, flags, sequence, p);
    RoutePayloadWalks(dstLen, scope, dst, gateway, ifIndex);
    PayloadSmall(dstLen, scope, dst, gateway, ifIndex);
    BatchSplits([m]);
    assert [m][1..] == [];
    assert Batch([m]) == NlMsg(m) + Batch([]);
    assert NlMsg(m) + [] == NlMsg(m);
  }

  lemma PayloadSmall(dstLen: byte, scope: byte, dst: Option<seq<byte>>, gateway: Option<seq<byte>>, ifIndex: int)
    requires dst.Some? ==> |dst.value| == 4
    requires gateway.Some? ==> |gateway.value| == 4
    ensures |RoutePayload(dstLen, scope, dst, gateway, ifIndex)| <= 36
  {
    hide PutAttr;
    AttrsSmall(RouteAttrs(dstLen, dst, gateway, ifIndex));
  }

  lemma {:induction false} AttrsSmall(attrs: seq<Attr>)
    requires forall i :: 0 <= i < |attrs| ==> |attrs[i].value| == 4
    ensures |PutAll([], attrs)| == 8 * |attrs|
  {
    hide PutAttr;
    if attrs != [] {
      AttrsSmall(attrs[..|attrs| - 1]);
    }
  }

  /** The values a reader finds in a route's attributes. */
  lemma ValuesRead(dstLen: byte, dst: Option<seq<byte>>, gateway: Option<seq<byte>>, ifIndex: int)
    ensures
      var attrs := RouteAttrs(dstLen, dst, gateway, ifIndex);
      && D.LastValue(attrs, 1) == (if dstLen > 0 then dst else None) && D.LastValue(attrs, 5) == gateway
      && D.LastValue(attrs, 4) == if ifIndex > 0 then Some(LittleEndian(ifIndex, 4)) else None
  {
    var a, b := Maybe(1, if dstLen > 0 then dst else None), Maybe(5, gateway);
    var c := Maybe(4, if ifIndex > 0 then Some(LittleEndian(ifIndex, 4)) else None);
    assert RouteAttrs(dstLen, dst, gateway, ifIndex) == a + b + c;
    hide RouteAttrs, Maybe, D.LastValue;
    forall kind: uint16
      ensures D.LastValue(a + b + c, kind) ==
              Later(Later(D.LastValue(a, kind), D.LastValue(b, kind)), D.LastValue(c, kind))
    {
      LastAppends(a + b, c, kind);
      LastAppends(a, b, kind);
    }
    forall kind: uint16, own: uint16, value: Option<seq<byte>> {
      MaybeValue(own, value, kind);
    }
  }

  function Maybe(kind: uint16, value: Option<seq<byte>>): seq<Attr>
  {
    if value.Some? then [Attr(kind, value.value)] else []
  }

  lemma MaybeValue(own: uint16, value: Option<seq<byte>>, kind: uint16)
    ensures D.LastValue(Maybe(own, value), kind) == if own == kind then value else None
  {
    if value.Some? {
      assert Maybe(own, value)[1..] == [];
    }
  }

  function Later(first: Option<seq<byte>>, second: Option<seq<byte>>): Option<seq<byte>>
  {
    if second.Some? then second else first
  }

  lemma {:induction false} LastAppends(a: seq<Attr>, b: seq<Attr>, kind: uint16)
    ensures D.LastValue(a + b, kind) == Later(D.LastValue(a, kind), D.LastValue(b, kind))
  {
    if a == [] {
      assert a + b == b;
    } else {
      LastAppends(a[1..], b, kind);
      assert (a + b)[1..] == a[1..] + b && (a + b)[0] == a[0];
    }
  }

  /** AddHostRoute asks for the host route that the routing model adds. */
  lemma AddHostRouteMeans(k: Kernel, sequence: uint32, ip: IPv4, gateway: IPv4, ifIndex: int)
    requires 0 <= ifIndex < TWO_32
    ensures Perform(k, NlMsg(BuildAddHostRoute(sequence, ip, gateway, ifIndex))) ==
            Some(AddHost(k, ip, Via(gateway, ifIndex)))
  {
    hide Messages, NlMsg, RoutePayload, WalkAttrs, RouteAttrs, To4, AddHost, DelHost, SetDefault;
    HostRouteReads(24, 0x605, sequence, ip, gateway, ifIndex);
  }

  /** DelHostRoute asks for the deletion of exactly that route. */
  lemma DelHostRouteMeans(k: Kernel, sequence: uint32, ip: IPv4, gateway: IPv4, ifIndex: int)
    requires 0 <= ifIndex < TWO_32
    ensures Perform(k, NlMsg(BuildDelHostRoute(sequence, ip, gateway, ifIndex))) ==
            Some(DelHost(k, ip, Via(gateway, ifIndex)))
  {
    hide Messages, NlMsg, RoutePayload, WalkAttrs, RouteAttrs, To4, AddHost, DelHost, SetDefault;
    HostRouteReads(25, 0x5, sequence, ip, gateway, ifIndex);
  }

  lemma HostRouteReads(kind: uint16, flags: uint16, sequence: uint32, ip: IPv4, gateway: IPv4, ifIndex: int)
    requires 0 <= ifIndex < TWO_32
    ensures
      var p := RoutePayload(32, 0, Some(To4(ip)), Some(To4(gateway)), ifIndex);
      && Messages(NlMsg(Msg(kind, flags, sequence, p))) == Split([Msg(kind, flags, sequence, p)], true)
      && |p| >= 12 && p[0] == 2 && p[1] == 32 && p[4] == 254 && p[5] == 4 && p[6] == 0 && p[7] == 1
      && HopOf(0, WalkAttrs(p[12..])) == Some(Via(gateway, ifIndex))
      && Address(D.LastValue(WalkAttrs(p[12..]), 1)) == Some(ip)
  {
    hide Messages, NlMsg, RoutePayload, WalkAttrs, RouteAttrs, To4, Address, Index;
    AddressReads(ip);
    AddressReads(gateway);
    RequestReads(kind, flags, sequence, 32, 0, Some(To4(ip)), Some(To4(gateway)), ifIndex);
    ValuesRead(32, Some(To4(ip)), Some(To4(gateway)), ifIndex);
    IndexOf(ifIndex);
  }

  lemma IndexOf(ifIndex: int)
    requires 0 <= ifIndex < TWO_32
    ensures Index(if ifIndex > 0 then Some(LittleEndian(ifIndex, 4)) else None) == ifIndex
  {
    hide LittleEndian;
    IndexReads(ifIndex);
  }

  /** ReplaceDefaultRoute asks for a default route straight out of the interface. */
  lemma ReplaceDefaultRouteMeans(k: Kernel, sequence: uint32, ifIndex: int)
    requires 0 <= ifIndex < TWO_32
    ensures Perform(k, NlMsg(BuildReplaceDefaultRoute(sequence, ifIndex))) == Some(SetDefault(k, Dev(ifIndex)))
  {
    hide Messages, NlMsg, RoutePayload, WalkAttrs, RouteAttrs, Index, SetDefault;
    RequestReads(24, 0x505, sequence, 0, 253, None, None, ifIndex);
    ValuesRead(0, None, None, ifIndex);
    IndexOf(ifIndex);
  }

  /** RestoreDefaultRoute asks for the default route through the gateway again. */
  lemma RestoreDefaultRouteMeans(k: Kernel, sequence: uint32, gateway: IPv4, ifIndex: int)
    requires 0 <= ifIndex < TWO_32
    ensures Perform(k, NlMsg(BuildRestoreDefaultRoute(sequence, gateway, ifIndex))) ==
            Some(SetDefault(k, Via(gateway, ifIndex)))
  {
    hide Messages, NlMsg, RoutePayload, WalkAttrs, RouteAttrs, Index, SetDefault, To4;
    AddressReads(gateway);
    RequestReads(24, 0x505, sequence, 0, 0, None, Some(To4(gateway)), ifIndex);
    ValuesRead(0, None, Some(To4(gateway)), ifIndex);
    IndexOf(ifIndex);
  }
}
