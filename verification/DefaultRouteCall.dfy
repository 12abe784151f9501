/** The whole of recvDefaultRoute: any number of datagrams, received one after the other into one buffer. */
module DefaultRouteCall {
  import opened Bytes
  import opened Netlink
  import opened NetlinkReceive
  import opened DefaultRoute

  datatype Reply = Route(fields: Fields) | NotFound | NoAnswer(why: Failure) | Endless | Crash

  /** How much of a datagram recvfrom delivers. */
  function Cut(buf: seq<byte>, d: seq<byte>): (n: nat)
    ensures n <= |buf| && n <= |d|
  {
    if |d| <= |buf| then |d| else |buf|
  }

  /** The buffer after recvfrom: later bytes are those of earlier datagrams. */
  function Receive(buf: seq<byte>, d: seq<byte>): (r: seq<byte>)
    ensures |r| == |buf|
  {
    d[..Cut(buf, d)] + buf[Cut(buf, d)..]
  }

  /** The call from its next recvfrom on. The gateway it returns is what its slice of the buffer holds at the end. */
  function Call(buf: seq<byte>, source: seq<Received>, want: uint32, f: Found, ifaces: Interfaces): Reply
    requires InBuffer(buf, f)
    decreases |source|
  {
    if source == [] || source[0].TimedOut? then NoAnswer(Timeout)
    else if source[0].RecvError? then NoAnswer(RecvFailed)
    else
      var now := Receive(buf, source[0].bytes);
      var w := WalkDatagram(now, Cut(buf, source[0].bytes), 0, want, f, ifaces);
      match w
      case More(g) => Call(now, source[1..], want, g, ifaces)
      case Done(g) => Route(Read(now, g))
      case Failed => NotFound
      case Loops => Endless
      case Panics => Crash
  }

  lemma {:induction false} DoneIsComplete(buf: seq<byte>, n: nat, pos: nat, want: uint32, f: Found, ifaces: Interfaces)
    requires n <= |buf|
    ensures
      var w := WalkDatagram(buf, n, pos, want, f, ifaces);
      w.Done? ==>
        && w.found.index != 0 && w.found.name != ""
        && w.found.gateway.Some? && w.found.gateway.value.0 + 4 <= w.found.gateway.value.1
    decreases n - pos
  {
    var p := OuterRound(buf, n, want, ifaces, On(pos, f));
    if p.On? && p.pos > pos {
      DoneIsComplete(buf, n, p.pos, want, p.found, ifaces);
    }
  }

  /** Whatever is received, an answer names an interface with an index and holds a gateway of at least four bytes. */
  lemma {:induction false} AnswerIsUsable(buf: seq<byte>, source: seq<Received>, want: uint32, f: Found,
                                          ifaces: Interfaces)
    requires InBuffer(buf, f) && Call(buf, source, want, f, ifaces).Route?
    ensures
      var answer := Call(buf, source, want, f, ifaces).fields;
      && answer.index != 0 && answer.name != ""
      && answer.gateway.Some? && |answer.gateway.value| >= 4
    decreases |source|
  {
    hide WalkDatagram, Receive;
    var now := Receive(buf, source[0].bytes);
    DoneIsComplete(now, Cut(buf, source[0].bytes), 0, want, f, ifaces);
    var w := WalkDatagram(now, Cut(buf, source[0].bytes), 0, want, f, ifaces);
    if w.More? {
      AnswerIsUsable(now, source[1..], want, w.found, ifaces);
    }
  }

  const NOTHING: Found := Found(None, 0, "")

  method RecvDefaultRoute(source: seq<Received>, want: uint32, ifaces: Interfaces) returns (r: Reply)
    ensures r == Call(Zeros(BUFFER), source, want, NOTHING, ifaces)
  {
    hide WalkDatagram;
    var buf := new byte[BUFFER](_ => 0);
    assert buf[..] == Zeros(BUFFER);
    var next, found := 0, NOTHING;
    assert source[0..] == source;
    while true
      invariant next <= |source| && buf.Length == BUFFER && InBuffer(buf[..], found)
      invariant Call(Zeros(BUFFER), source, want, NOTHING, ifaces) == Call(buf[..], source[next..], want, found, ifaces)
      decreases |source| - next
    {
      if next == |source| || source[next].TimedOut? {
        return NoAnswer(Timeout);
      }
      if source[next].RecvError? {
        return NoAnswer(RecvFailed);
      }
      var d := source[next].bytes;
      var n := if |d| <= BUFFER then |d| else BUFFER;
      ghost var before := buf[..];
      forall i | 0 <= i < n {
        buf[i] := d[i];
      }
      assert buf[..] == Receive(before, d);
      assert source[next..][1..] == source[next + 1..];
      var w := ReadRoutes(buf, n, want, found, ifaces);
      match w {
        case More(g) =>
          found := g;
          next := next + 1;
        case Done(g) =>
          return Route(Fields(if g.gateway.Some? then Some(buf[g.gateway.value.0..g.gateway.value.1]) else None,
            g.index, g.name));
        case Failed => return NotFound;
        case Loops => return Endless;
        case Panics => return Crash;
      }
    }
  }

  // ---- Passing over messages ----

  /** The walk passes a batch in which no message ends it; what is skipped changes nothing. */
  lemma {:induction false} PassBatch(buf: seq<byte>, n: nat, pos: nat, want: uint32, f: Found, ifaces: Interfaces,
                                     ms: seq<Msg>) returns (g: Found)
    requires pos <= n <= |buf| && InBuffer(buf, f) && Batch(ms) <= buf[pos..n]
    requires forall i :: 0 <= i < |ms| ==> Sendable(ms[i]) && Proper(ms[i], want) && !Ends(ms[i], want, ifaces)
    ensures InBuffer(buf, g) && ((forall i :: 0 <= i < |ms| ==> Skipped(ms[i], want)) ==> g == f)
    ensures WalkDatagram(buf, n, pos, want, f, ifaces) == WalkDatagram(buf, n, pos + |Batch(ms)|, want, g, ifaces)
    decreases |ms|
  {
    hide WalkDatagram, Ends, NlMsg, Skipped, Read, TakeRoute;
    if ms == [] {
      g := f;
    } else {
      var next := pos + |NlMsg(ms[0])|;
      FrontOfBatch(buf, n, pos, ms[0], Batch(ms[1..]));
      GoesOnIff(ms[0], want, Read(buf, f), ifaces);
      RouteStep(buf, n, pos, want, f, ifaces);
      var f1 := AfterRoute(buf, n, pos, want, f, ifaces);
      if Skipped(ms[0], want) {
        NothingAfterSkipped(buf, n, pos, want, f, ifaces);
      }
      g := PassBatch(buf, n, next, want, f1, ifaces, ms[1..]);
    }
  }

  lemma FrontOfBatch(buf: seq<byte>, n: nat, pos: nat, m: Msg, rest: seq<byte>)
    requires pos <= n <= |buf| && Sendable(m) && NlMsg(m) + rest <= buf[pos..n]
    ensures
      var b, next := buf[pos..n], pos + |NlMsg(m)|;
      && |b| >= HDRLEN && FrontFits(b) && FrontMsg(b) == m && Align4(MsgLength(b)) == |NlMsg(m)|
      && next <= n && rest <= buf[next..n]
  {
    hide NlMsg;
    var size := |NlMsg(m)|;
    PrefixParts(NlMsg(m), rest, buf[pos..n]);
    NlMsgFields(m, buf[pos..n][size..]);
    SubSlice(buf, pos, n, size, n - pos);
  }

  lemma PrefixParts(x: seq<byte>, y: seq<byte>, b: seq<byte>)
    requires x + y <= b
    ensures b == x + b[|x|..] && y <= b[|x|..]
  {
    var tail := b[|x + y|..];
    assert b == x + y + tail;
    assert b[|x|..] == y + tail;
  }

  lemma NothingAfterSkipped(buf: seq<byte>, n: nat, pos: nat, want: uint32, f: Found, ifaces: Interfaces)
    requires pos + HDRLEN <= n <= |buf| && FrontFits(buf[pos..n]) && Skipped(FrontMsg(buf[pos..n]), want)
    ensures AfterRoute(buf, n, pos, want, f, ifaces) == f
  {
  }

  lemma SkippedGoesOn(m: Msg, want: uint32, ifaces: Interfaces)
    requires Skipped(m, want)
    ensures Proper(m, want) && !Ends(m, want, ifaces)
  {
  }

  /** Messages to skip, then DONE, then anything. */
  predicate Concludes(ms: seq<Msg>, want: uint32)
  {
    ms != [] && (IsDone(ms[0], want) || (Skipped(ms[0], want) && Concludes(ms[1..], want)))
  }

  /** A clean datagram of messages to skip. */
  ghost predicate Quiet(d: seq<byte>, want: uint32)
  {
    Messages(d).clean && forall i :: 0 <= i < |Messages(d).messages| ==> Skipped(Messages(d).messages[i], want)
  }

  /** A clean datagram that ends the dump. */
  ghost predicate Final(d: seq<byte>, want: uint32)
  {
    Messages(d).clean && Concludes(Messages(d).messages, want)
  }

  /** Clean datagrams of messages to skip, and one that ends the dump. */
  ghost predicate Tail(ds: seq<seq<byte>>, want: uint32)
  {
    ds != [] && (forall i :: 0 <= i < |ds| - 1 ==> Quiet(ds[i], want)) && Final(ds[|ds| - 1], want)
  }

  lemma {:induction false} QuietWalk(buf: seq<byte>, n: nat, pos: nat, want: uint32, f: Found, ifaces: Interfaces)
    requires pos <= n <= |buf| && InBuffer(buf, f) && Quiet(buf[pos..n], want)
    ensures WalkDatagram(buf, n, pos, want, f, ifaces) == More(f)
    decreases n - pos
  {
    hide WalkDatagram, Messages, FrontFits, Skipped, AfterRoute;
    if pos + HDRLEN > n {
      WalkEnds(buf, n, pos, want, f, ifaces);
    } else {
      SplitUnfolds(buf[pos..n]);
      SkipFirst(buf, n, pos, want, f, ifaces);
      QuietWalk(buf, n, pos + Align4(MsgLength(buf[pos..n])), want, f, ifaces);
    }
  }

  /** Past a message to skip, on to the rest of the datagram. */
  lemma SkipFirst(buf: seq<byte>, n: nat, pos: nat, want: uint32, f: Found, ifaces: Interfaces)
    requires pos + HDRLEN <= n <= |buf| && InBuffer(buf, f) && Messages(buf[pos..n]).clean
    requires Messages(buf[pos..n]).messages != [] && Skipped(Messages(buf[pos..n]).messages[0], want)
    ensures
      var b := buf[pos..n];
      var next := pos + Align4(MsgLength(b));
      && pos < next <= n && Messages(buf[next..n]).clean && Messages(buf[next..n]).messages == Messages(b).messages[1..]
      && WalkDatagram(buf, n, pos, want, f, ifaces) == WalkDatagram(buf, n, next, want, f, ifaces)
  {
    hide WalkDatagram, Messages, Skipped, Read, TakeRoute, Ends, AfterRoute;
    var b := buf[pos..n];
    SplitUnfolds(b);
    SubSlice(buf, pos, n, Align4(MsgLength(b)), |b|);
    SkippedGoesOn(FrontMsg(b), want, ifaces);
    GoesOnIff(FrontMsg(b), want, Read(buf, f), ifaces);
    RouteStep(buf, n, pos, want, f, ifaces);
    NothingAfterSkipped(buf, n, pos, want, f, ifaces);
  }

  lemma {:induction false} FinalWalk(buf: seq<byte>, n: nat, pos: nat, want: uint32, f: Found, ifaces: Interfaces)
    requires pos <= n <= |buf| && InBuffer(buf, f) && Final(buf[pos..n], want)
    ensures WalkDatagram(buf, n, pos, want, f, ifaces) == Complete(f)
    decreases n - pos
  {
    hide WalkDatagram, Messages, FrontFits, Skipped, IsDone;
    var b := buf[pos..n];
    if pos + HDRLEN > n {
      NoMessages(b);
    } else if IsDone(Messages(b).messages[0], want) {
      SplitUnfolds(b);
      DoneWalk(buf, n, pos, want, f, ifaces);
    } else {
      SkipFirst(buf, n, pos, want, f, ifaces);
      FinalWalk(buf, n, pos + Align4(MsgLength(b)), want, f, ifaces);
    }
  }

  lemma NoMessages(b: seq<byte>)
    requires |b| < HDRLEN
    ensures Messages(b) == Split([], true)
  {
  }

  lemma DoneWalk(buf: seq<byte>, n: nat, pos: nat, want: uint32, f: Found, ifaces: Interfaces)
    requires pos + HDRLEN <= n <= |buf| && FrontFits(buf[pos..n]) && IsDone(FrontMsg(buf[pos..n]), want)
    ensures WalkDatagram(buf, n, pos, want, f, ifaces) == Complete(f)
  {
    hide ReadNative16, ReadNative32;
    FrontAt(buf, n, pos);
  }

  // ---- The default route among them ----

  function DefaultRouteMsg(flags: uint16, want: uint32, scope: byte, gateway: seq<byte>, ifIndex: int): Msg
  {
    Msg(RTM_NEWROUTE, flags, want, RouteHeader(0, scope) + PutAll([], RouteAttrs(0, None, Some(gateway), ifIndex)))
  }

  /** What the walk holds after that message at pos. */
  function Collected(pos: nat, gateway: seq<byte>, i: Interface): Found
  {
    Found(Some((pos + 32, pos + 32 + |gateway|)), i.index, i.name)
  }

  predicate Resolvable(gateway: seq<byte>, ifIndex: int, ifaces: Interfaces)
  {
    && 4 <= |gateway| && 4 + |gateway| < TWO_16 && 0 < ifIndex < TWO_32
    && ifIndex in ifaces && ifaces[ifIndex].index != 0 && ifaces[ifIndex].name != ""
  }

  /** The inner loop over the attributes of buildRoutePayload. */
  lemma TwoAttrs(buf: seq<byte>, pos: nat, end: nat, f: Found, gateway: seq<byte>, ifIndex: int, ifaces: Interfaces)
    requires pos <= end <= |buf| && InBuffer(buf, f) && Resolvable(gateway, ifIndex, ifaces)
    requires buf[pos..end] == PutAll([], RouteAttrs(0, None, Some(gateway), ifIndex))
    ensures pos + 4 + |gateway| <= end && buf[pos + 4..pos + 4 + |gateway|] == gateway
    ensures AttrLoop(buf, pos, end, f, ifaces)
            == More(Found(Some((pos + 4, pos + 4 + |gateway|)), ifaces[ifIndex].index, ifaces[ifIndex].name))
  {
    hide AttrLoop, PutAttr, PutAll, RouteAttrs, ReadNative16, ReadNative32;
    var oif := LittleEndian(ifIndex, 4);
    var b := buf[pos..end];
    var first, second := PutAttr([], RTA_GATEWAY, gateway), PutAttr([], RTA_OIF, oif);
    TwoAttrsBytes(gateway, ifIndex);
    AttrFields(RTA_GATEWAY, gateway, second);
    assert b == first + second;
    AttrStep(buf, pos, end, f, ifaces);
    SubSlice(buf, pos, end, 4, 4 + |gateway|);
    var f1 := f.(gateway := Some((pos + 4, pos + 4 + |gateway|)));
    var next := pos + |first|;
    SubSlice(buf, pos, end, |first|, |b|);
    assert b[|first|..] == second;
    AttrFields(RTA_OIF, oif, []);
    assert second + [] == second;
    Widths();
    LittleEndianReads(ifIndex, 4);
    assert oif[0..4] == oif;
    ReadsNative(ifIndex);
    AttrStep(buf, next, end, f1, ifaces);
    assert AttrLoop(buf, end, end, f1.(index := ifaces[ifIndex].index, name := ifaces[ifIndex].name), ifaces).More?;
  }

  lemma ReadsNative(v: uint32)
    ensures ReadNative32(LittleEndian(v, 4)) == v
  {
    Widths();
    LittleEndianReads(v, 4);
  }

  lemma ReadsNative16(v: uint16)
    ensures ReadNative16(LittleEndian(v, 2)) == v
  {
    Widths();
    LittleEndianReads(v, 2);
  }

  lemma TwoAttrsBytes(gateway: seq<byte>, ifIndex: int)
    requires 0 < ifIndex
    ensures PutAll([], RouteAttrs(0, None, Some(gateway), ifIndex))
            == PutAttr([], RTA_GATEWAY, gateway) + PutAttr([], RTA_OIF, LittleEndian(ifIndex, 4))
  {
    hide PutAttr, PutAll;
    var oif := LittleEndian(ifIndex, 4);
    assert RouteAttrs(0, None, Some(gateway), ifIndex) == ([] + [Attr(RTA_GATEWAY, gateway)]) + [Attr(RTA_OIF, oif)];
    PutNone();
    PutOneMore([], RTA_GATEWAY, gateway);
    PutOneMore([] + [Attr(RTA_GATEWAY, gateway)], RTA_OIF, oif);
    PutAttrAppends(PutAttr([], RTA_GATEWAY, gateway), RTA_OIF, oif);
  }

  /** The walk over that message. */
  lemma RouteWalk(buf: seq<byte>, n: nat, pos: nat, f: Found, flags: uint16, want: uint32, scope: byte,
                  gateway: seq<byte>, ifIndex: int, ifaces: Interfaces)
    requires pos <= n <= |buf| && InBuffer(buf, f) && Resolvable(gateway, ifIndex, ifaces)
    requires NlMsg(DefaultRouteMsg(flags, want, scope, gateway, ifIndex)) <= buf[pos..n]
    ensures
      var next := pos + |NlMsg(DefaultRouteMsg(flags, want, scope, gateway, ifIndex))|;
      var g := Collected(pos, gateway, ifaces[ifIndex]);
      && next <= n && InBuffer(buf, g) && Read(buf, g) == Fields(Some(gateway), g.index, g.name)
      && WalkDatagram(buf, n, pos, want, f, ifaces) == WalkDatagram(buf, n, next, want, g, ifaces)
  {
    hide WalkDatagram, NlMsg, TakeRoute, AfterRoute, Read, DefaultRouteMsg;
    var m := DefaultRouteMsg(flags, want, scope, gateway, ifIndex);
    RouteSendable(flags, want, scope, gateway, ifIndex);
    assert NlMsg(m) + [] == NlMsg(m);
    FrontOfBatch(buf, n, pos, m, []);
    RouteFound(buf, n, pos, f, flags, want, scope, gateway, ifIndex, ifaces);
    RouteStep(buf, n, pos, want, f, ifaces);
  }

  lemma RouteSendable(flags: uint16, want: uint32, scope: byte, gateway: seq<byte>, ifIndex: int)
    requires 4 + |gateway| < TWO_16 && 0 < ifIndex < TWO_32
    ensures Sendable(DefaultRouteMsg(flags, want, scope, gateway, ifIndex))
  {
    hide PutAll, RouteAttrs;
    RouteFits(flags, want, scope, gateway, ifIndex);
  }

  /** What one round over that message takes from it. */
  lemma RouteFound(buf: seq<byte>, n: nat, pos: nat, f: Found, flags: uint16, want: uint32, scope: byte,
                   gateway: seq<byte>, ifIndex: int, ifaces: Interfaces)
    requires pos + HDRLEN <= n <= |buf| && InBuffer(buf, f) && Resolvable(gateway, ifIndex, ifaces)
    requires FrontFits(buf[pos..n]) && FrontMsg(buf[pos..n]) == DefaultRouteMsg(flags, want, scope, gateway, ifIndex)
    ensures
      var m, g := DefaultRouteMsg(flags, want, scope, gateway, ifIndex), Collected(pos, gateway, ifaces[ifIndex]);
      && Proper(m, want) && TakeRoute(m, want, Read(buf, f), ifaces).Going?
      && AfterRoute(buf, n, pos, want, f, ifaces) == g && InBuffer(buf, g)
         && Read(buf, g) == Fields(Some(gateway), g.index, g.name)
  {
    hide AttrLoop, PutAll, RouteAttrs, WalkAttrs, TakeRoute, TakeAttrs;
    var m := DefaultRouteMsg(flags, want, scope, gateway, ifIndex);
    RoutePayloadWalks(0, scope, None, Some(gateway), ifIndex);
    FrontAt(buf, n, pos);
    var end := pos + MsgLength(buf[pos..n]);
    assert m.payload[12..] == buf[pos + 28..end];
    assert m.payload[12..] == PutAll([], RouteAttrs(0, None, Some(gateway), ifIndex));
    TwoAttrs(buf, pos + 28, end, f, gateway, ifIndex, ifaces);
    AttrLoopRefines(buf, pos + 28, end, f, ifaces);
    RouteGoesOn(m, want, f, buf, ifaces);
  }

  lemma RouteGoesOn(m: Msg, want: uint32, f: Found, buf: seq<byte>, ifaces: Interfaces)
    requires InBuffer(buf, f) && m.sequence == want && m.kind == RTM_NEWROUTE && |m.payload| >= 12
    requires m.payload[1] == 0 && m.payload[4] == RT_TABLE_MAIN
             && TakeAttrs(WalkAttrs(m.payload[12..]), Read(buf, f), ifaces).Some?
    ensures TakeRoute(m, want, Read(buf, f), ifaces).Going?
  {
  }

  // ---- Datagram by datagram ----

  function Datagrams(ds: seq<seq<byte>>): (r: seq<Received>)
    ensures |r| == |ds| && forall i :: 0 <= i < |ds| ==> r[i] == Datagram(ds[i])
  {
    seq(|ds|, i requires 0 <= i < |ds| => Datagram(ds[i]))
  }

  /** The buffer after these datagrams. */
  function After(buf: seq<byte>, ds: seq<seq<byte>>): (r: seq<byte>)
    ensures |r| == |buf|
    decreases |ds|
  {
    if ds == [] then buf else After(Receive(buf, ds[0]), ds[1..])
  }

  predicate FitBuffer(ds: seq<seq<byte>>, buf: seq<byte>)
  {
    forall i :: 0 <= i < |ds| ==> |ds[i]| <= |buf|
  }

  /** A clean datagram in which no message ends the walk or gets it stuck. */
  ghost predicate Passable(d: seq<byte>, want: uint32, ifaces: Interfaces)
  {
    && Messages(d).clean && AllProper(Messages(d).messages, want)
    && forall i :: 0 <= i < |Messages(d).messages| ==> !Ends(Messages(d).messages[i], want, ifaces)
  }

  lemma ReceivedFront(buf: seq<byte>, d: seq<byte>)
    requires |d| <= |buf|
    ensures Cut(buf, d) == |d| && Receive(buf, d)[0..|d|] == d
  {
  }

  /** The call on one more datagram. */
  lemma CallUnfolds(buf: seq<byte>, d: seq<byte>, rest: seq<Received>, want: uint32, f: Found, ifaces: Interfaces)
    requires InBuffer(buf, f) && |d| <= |buf|
    ensures
      var now := Receive(buf, d);
      var w := WalkDatagram(now, |d|, 0, want, f, ifaces);
      && (w.More? ==> Call(buf, [Datagram(d)] + rest, want, f, ifaces) == Call(now, rest, want, w.found, ifaces))
      && (w.Done? ==> Call(buf, [Datagram(d)] + rest, want, f, ifaces) == Route(Read(now, w.found)))
  {
    hide WalkDatagram, Receive;
    ReceivedFront(buf, d);
    assert ([Datagram(d)] + rest)[1..] == rest;
  }

  lemma FirstOf(ds: seq<seq<byte>>, rest: seq<Received>)
    requires ds != []
    ensures Datagrams(ds) + rest == [Datagram(ds[0])] + (Datagrams(ds[1..]) + rest)
  {
  }

  lemma {:induction false} PassDatagrams(buf: seq<byte>, ds: seq<seq<byte>>, rest: seq<Received>, want: uint32,
                                         f: Found, ifaces: Interfaces) returns (g: Found)
    requires InBuffer(buf, f) && FitBuffer(ds, buf) && forall i :: 0 <= i < |ds| ==> Passable(ds[i], want, ifaces)
    ensures InBuffer(After(buf, ds), g)
    ensures Call(buf, Datagrams(ds) + rest, want, f, ifaces) == Call(After(buf, ds), rest, want, g, ifaces)
    decreases |ds|
  {
    hide Call, WalkDatagram, Passable, Datagrams, Receive;
    if ds == [] {
      g := f;
      assert Datagrams(ds) + rest == rest;
    } else {
      var now := Receive(buf, ds[0]);
      var h := PassDatagram(buf, ds[0], want, f, ifaces);
      FirstOf(ds, rest);
      CallUnfolds(buf, ds[0], Datagrams(ds[1..]) + rest, want, f, ifaces);
      g := PassDatagrams(now, ds[1..], rest, want, h, ifaces);
    }
  }

  lemma PassDatagram(buf: seq<byte>, d: seq<byte>, want: uint32, f: Found, ifaces: Interfaces) returns (g: Found)
    requires InBuffer(buf, f) && |d| <= |buf| && Passable(d, want, ifaces)
    ensures InBuffer(Receive(buf, d), g) && WalkDatagram(Receive(buf, d), |d|, 0, want, f, ifaces) == More(g)
  {
    hide WalkDatagram, TakeRoutes, Messages, Receive, Ends;
    var now := Receive(buf, d);
    ReceivedFront(buf, d);
    WalkRefines(now, |d|, 0, want, f, ifaces);
    GoingIff(Messages(d).messages, want, Read(now, f), ifaces);
    g := WalkDatagram(now, |d|, 0, want, f, ifaces).found;
  }

  /** From a complete route on, a tail only decides what the gateway's slice holds when the call returns. */
  lemma {:induction false} TailCall(buf: seq<byte>, ds: seq<seq<byte>>, rest: seq<Received>, want: uint32, f: Found,
                                    ifaces: Interfaces)
    requires InBuffer(buf, f) && FitBuffer(ds, buf) && Tail(ds, want) && Complete(f) == Done(f)
    ensures Call(buf, Datagrams(ds) + rest, want, f, ifaces) == Route(Read(After(buf, ds), f))
    decreases |ds|
  {
    hide Call, WalkDatagram, Quiet, Final, Datagrams, Receive, Complete;
    var now := Receive(buf, ds[0]);
    ReceivedFront(buf, ds[0]);
    FirstOf(ds, rest);
    CallUnfolds(buf, ds[0], Datagrams(ds[1..]) + rest, want, f, ifaces);
    if |ds| == 1 {
      FinalWalk(now, |ds[0]|, 0, want, f, ifaces);
      assert After(now, ds[1..]) == now;
    } else {
      QuietWalk(now, |ds[0]|, 0, want, f, ifaces);
      TailCall(now, ds[1..], rest, want, f, ifaces);
    }
  }

  // ---- The call ----

  function RouteDatagram(before: seq<Msg>, between: seq<Msg>, flags: uint16, want: uint32, scope: byte,
                         gateway: seq<byte>, ifIndex: int): seq<byte>
  {
    Batch(before + [DefaultRouteMsg(flags, want, scope, gateway, ifIndex)] + between)
  }

  /** Everything up to the default route: the walk stands behind it, and this is what it has collected. */
  lemma UpToRoute(buf: seq<byte>, early: seq<seq<byte>>, before: seq<Msg>, between: seq<Msg>, flags: uint16,
                  want: uint32, scope: byte, gateway: seq<byte>, ifIndex: int, rest: seq<Received>, ifaces: Interfaces)
    returns (held: seq<byte>, f: Found, next: nat)
    requires Resolvable(gateway, ifIndex, ifaces)
             && Dump(buf, early, before, between, flags, want, scope, gateway, ifIndex, ifaces)
    ensures
      var d := RouteDatagram(before, between, flags, want, scope, gateway, ifIndex);
      var g, now := Collected(|Batch(before)|, gateway, ifaces[ifIndex]), Receive(held, d);
      && |held| == |buf| && |d| <= |held| && InBuffer(held, f)
      && Call(buf, Datagrams(early) + ([Datagram(d)] + rest), want, NOTHING, ifaces) ==
         Call(held, [Datagram(d)] + rest, want, f, ifaces)
      && next <= |d| && now[next..|d|] == Batch(between)
      && InBuffer(now, g) && Read(now, g) == Fields(Some(gateway), g.index, g.name) && Complete(g) == Done(g)
      && WalkDatagram(now, |d|, 0, want, f, ifaces) == WalkDatagram(now, |d|, next, want, g, ifaces)
  {
    hide Call, WalkDatagram, Datagrams, Receive, Read, Batch, NlMsg, Passable, Ends, DefaultRouteMsg, Proper,
         Sendable, Skipped;
    var route := DefaultRouteMsg(flags, want, scope, gateway, ifIndex);
    var d := RouteDatagram(before, between, flags, want, scope, gateway, ifIndex);
    f := PassDatagrams(buf, early, [Datagram(d)] + rest, want, NOTHING, ifaces);
    held := After(buf, early);
    var now := Receive(held, d);
    ReceivedFront(held, d);
    BatchParts(before, route, between);
    assert Batch(before) <= now[0..|d|];
    var f1 := PassBatch(now, |d|, 0, want, f, ifaces, before);
    var at := |Batch(before)|;
    assert now[at..|d|] == NlMsg(route) + Batch(between);
    RouteWalk(now, |d|, at, f1, flags, want, scope, gateway, ifIndex, ifaces);
    next := at + |NlMsg(route)|;
    assert now[next..|d|] == Batch(between);
  }

  /** Everything up to and including the datagram with the default route: what is collected, and where. */
  lemma Collects(buf: seq<byte>, early: seq<seq<byte>>, before: seq<Msg>, between: seq<Msg>, flags: uint16,
                 want: uint32, scope: byte, gateway: seq<byte>, ifIndex: int, rest: seq<Received>, ifaces: Interfaces)
    returns (now: seq<byte>)
    requires Resolvable(gateway, ifIndex, ifaces)
             && Dump(buf, early, before, between, flags, want, scope, gateway, ifIndex, ifaces)
    requires forall i :: 0 <= i < |between| ==> Skipped(between[i], want)
    ensures
      var d := RouteDatagram(before, between, flags, want, scope, gateway, ifIndex);
      var g := Collected(|Batch(before)|, gateway, ifaces[ifIndex]);
      && |now| == |buf| && InBuffer(now, g) && Read(now, g) == Fields(Some(gateway), g.index, g.name)
         && Complete(g) == Done(g)
      && Call(buf, Datagrams(early) + ([Datagram(d)] + rest), want, NOTHING, ifaces) == Call(now, rest, want, g, ifaces)
  {
    hide Call, WalkDatagram, Datagrams, Receive, Skipped, Read, Batch, RouteDatagram, Complete, InBuffer;
    var d := RouteDatagram(before, between, flags, want, scope, gateway, ifIndex);
    var held, f, next := UpToRoute(buf, early, before, between, flags, want, scope, gateway, ifIndex, rest, ifaces);
    now := Receive(held, d);
    CallUnfolds(held, d, rest, want, f, ifaces);
    BatchSplits(between);
    QuietWalk(now, |d|, next, want, Collected(|Batch(before)|, gateway, ifaces[ifIndex]), ifaces);
  }

  lemma BatchCons(m: Msg, rest: seq<Msg>)
    ensures Batch([m] + rest) == NlMsg(m) + Batch(rest)
  {
    hide NlMsg;
    assert ([m] + rest)[1..] == rest;
  }

  lemma BatchParts(before: seq<Msg>, m: Msg, between: seq<Msg>)
    ensures Batch(before + [m] + between) == Batch(before) + (NlMsg(m) + Batch(between))
  {
    hide NlMsg, Batch;
    assert before + [m] + between == before + ([m] + between);
    BatchAppends(before, [m] + between);
    BatchCons(m, between);
  }

  lemma {:induction false} BatchAppends(a: seq<Msg>, b: seq<Msg>)
    ensures Batch(a + b) == Batch(a) + Batch(b)
  {
    if a == [] {
      assert a + b == b;
    } else {
      hide NlMsg, Batch;
      var m, rest := a[0], a[1..];
      assert a == [m] + rest;
      BatchCons(m, rest);
      ConsAssociates(m, rest, b);
      BatchCons(m, rest + b);
      BatchAppends(rest, b);
      BytesAssociate(NlMsg(m), Batch(rest), Batch(b));
    }
  }

  lemma BytesAssociate(x: seq<byte>, y: seq<byte>, z: seq<byte>)
    ensures (x + y) + z == x + (y + z)
  {
  }

  /** A dump up to its last default route: earlier datagrams and messages of any kind that do not end it, the route as
      buildRoutePayload encodes it, and what follows in the same datagram. */
  ghost predicate Dump(buf: seq<byte>, early: seq<seq<byte>>, before: seq<Msg>, between: seq<Msg>, flags: uint16,
                       want: uint32, scope: byte, gateway: seq<byte>, ifIndex: int, ifaces: Interfaces)
  {
    && FitBuffer(early, buf) && (forall i :: 0 <= i < |early| ==> Passable(early[i], want, ifaces))
    && (forall i :: 0 <= i < |before| ==>
          Sendable(before[i]) && Proper(before[i], want) && !Ends(before[i], want, ifaces))
    && (forall i :: 0 <= i < |between| ==> Sendable(between[i]))
    && |Batch(before + [DefaultRouteMsg(flags, want, scope, gateway, ifIndex)] + between)| <= |buf|
  }

  /** The whole dump: earlier datagrams, the one with the route, and the tail. */
  function Source(early: seq<seq<byte>>, d: seq<byte>, tail: seq<seq<byte>>): seq<Received>
  {
    Datagrams(early) + ([Datagram(d)] + Datagrams(tail))
  }

  function Answer(gateway: seq<byte>, i: Interface): Reply
  {
    Route(Fields(Some(gateway), i.index, i.name))
  }

  /** A dump with its last default route at some place and a tail: the call answers with the interface and whatever
      the gateway's slice holds after the tail. */
  lemma CallAnswers(buf: seq<byte>, early: seq<seq<byte>>, before: seq<Msg>, between: seq<Msg>, flags: uint16,
                    want: uint32, scope: byte, gateway: seq<byte>, ifIndex: int, tail: seq<seq<byte>>,
                    ifaces: Interfaces) returns (now: seq<byte>)
    requires Resolvable(gateway, ifIndex, ifaces)
             && Dump(buf, early, before, between, flags, want, scope, gateway, ifIndex, ifaces)
    requires forall i :: 0 <= i < |between| ==> Skipped(between[i], want)
    requires FitBuffer(tail, buf) && Tail(tail, want)
    ensures
      var d := RouteDatagram(before, between, flags, want, scope, gateway, ifIndex);
      var g := Collected(|Batch(before)|, gateway, ifaces[ifIndex]);
      && |now| == |buf| && InBuffer(now, g) && Read(now, g) == Fields(Some(gateway), g.index, g.name)
      && Call(buf, Source(early, d, tail), want, NOTHING, ifaces) == Route(Read(After(now, tail), g))
  {
    hide Call, Batch, Dump, Read, Datagrams, Tail, After;
    now := Collects(buf, early, before, between, flags, want, scope, gateway, ifIndex, Datagrams(tail), ifaces);
    TailCall(now, tail, [], want, Collected(|Batch(before)|, gateway, ifaces[ifIndex]), ifaces);
    assert Datagrams(tail) + [] == Datagrams(tail);
  }

  /** The dump of a kernel, in any number of datagrams, whose last default route was encoded by buildRoutePayload: when
      no later datagram reaches the gateway's place in the buffer, the call returns that gateway and interface. */
  lemma DefaultRouteRecovered(buf: seq<byte>, early: seq<seq<byte>>, before: seq<Msg>, between: seq<Msg>, flags: uint16,
                              want: uint32, scope: byte, gateway: seq<byte>, ifIndex: int, tail: seq<seq<byte>>,
                              ifaces: Interfaces)
    requires Resolvable(gateway, ifIndex, ifaces)
             && Dump(buf, early, before, between, flags, want, scope, gateway, ifIndex, ifaces)
    requires forall i :: 0 <= i < |between| ==> Skipped(between[i], want)
    requires FitBuffer(tail, buf) && Tail(tail, want)
    requires forall i :: 0 <= i < |tail| ==> |tail[i]| <= |Batch(before)| + 32
    ensures
      var d := RouteDatagram(before, between, flags, want, scope, gateway, ifIndex);
      Call(buf, Source(early, d, tail), want, NOTHING, ifaces) == Answer(gateway, ifaces[ifIndex])
  {
    hide Call, Batch, Dump, Tail, After, RouteDatagram;
    var now := CallAnswers(buf, early, before, between, flags, want, scope, gateway, ifIndex, tail, ifaces);
    ShortTailKeeps(now, tail, Collected(|Batch(before)|, gateway, ifaces[ifIndex]));
  }

  lemma {:induction false} ShortTailKeeps(buf: seq<byte>, ds: seq<seq<byte>>, f: Found)
    requires InBuffer(buf, f) && f.gateway.Some? && FitBuffer(ds, buf)
    requires forall i :: 0 <= i < |ds| ==> |ds[i]| <= f.gateway.value.0
    ensures Read(After(buf, ds), f) == Read(buf, f)
    decreases |ds|
  {
    if ds != [] {
      var (a, b) := f.gateway.value;
      ShortTailKeeps(Receive(buf, ds[0]), ds[1..], f);
      assert Receive(buf, ds[0])[a..b] == buf[a..b];
    }
  }

  /** A dump that ends in the datagram of its last default route is always answered rightly. */
  lemma OneDatagramRecovered(buf: seq<byte>, early: seq<seq<byte>>, before: seq<Msg>, between: seq<Msg>, flags: uint16,
                             want: uint32, scope: byte, gateway: seq<byte>, ifIndex: int, rest: seq<Received>,
                             ifaces: Interfaces)
    requires Resolvable(gateway, ifIndex, ifaces)
             && Dump(buf, early, before, between, flags, want, scope, gateway, ifIndex, ifaces)
    requires Concludes(between, want)
    ensures
      var d := RouteDatagram(before, between, flags, want, scope, gateway, ifIndex);
      Call(buf, Datagrams(early) + ([Datagram(d)] + rest), want, NOTHING, ifaces) == Answer(gateway, ifaces[ifIndex])
  {
    hide Call, WalkDatagram, Datagrams, Receive, Read, Batch, RouteDatagram, Complete, InBuffer, Concludes;
    var d := RouteDatagram(before, between, flags, want, scope, gateway, ifIndex);
    var held, f, next := UpToRoute(buf, early, before, between, flags, want, scope, gateway, ifIndex, rest, ifaces);
    var now := Receive(held, d);
    CallUnfolds(held, d, rest, want, f, ifaces);
    BatchSplits(between);
    FinalWalk(now, |d|, next, want, Collected(|Batch(before)|, gateway, ifaces[ifIndex]), ifaces);
  }

  // ---- Exactly when ----

  ghost predicate OfLengths(ds: seq<seq<byte>>, lengths: seq<nat>)
  {
    |ds| == |lengths| && forall i :: 0 <= i < |ds| ==> |ds[i]| == lengths[i]
  }

  function Fill(n: nat, x: byte): (b: seq<byte>)
    ensures |b| == n
  {
    seq(n, _ => x)
  }

  /** A datagram of n bytes: one message of this type and sequence, and x wherever else. */
  function Filler(n: nat, kind: uint16, sequence: uint32, x: byte): (d: seq<byte>)
    ensures |d| == n
  {
    if n < HDRLEN then Fill(n, x)
    else NlMsg(Msg(kind, 0, sequence, Fill(n - n % 4 - HDRLEN, x))) + Fill(n % 4, x)
  }

  lemma FillerReads(n: nat, kind: uint16, sequence: uint32, x: byte)
    requires n < TWO_32
    ensures Messages(Filler(n, kind, sequence, x)).clean
    ensures n < HDRLEN ==> Messages(Filler(n, kind, sequence, x)).messages == []
    ensures n >= HDRLEN ==>
              Messages(Filler(n, kind, sequence, x)).messages == [Msg(kind, 0, sequence, Fill(n - n % 4 - HDRLEN, x))]
    ensures forall i :: HDRLEN <= i < n ==> Filler(n, kind, sequence, x)[i] == x
  {
    hide NlMsg, Messages;
    if n < HDRLEN {
      NoMessages(Fill(n, x));
    } else {
      var m := Msg(kind, 0, sequence, Fill(n - n % 4 - HDRLEN, x));
      SplitFirst(m, Fill(n % 4, x));
      NoMessages(Fill(n % 4, x));
      PayloadAtEnd(m);
    }
  }

  lemma PayloadAtEnd(m: Msg)
    ensures NlMsg(m)[HDRLEN..] == m.payload
  {
  }

  function Unwanted(want: uint32): (q: uint32)
    ensures q != want
  {
    if want == 0 then 1 else 0
  }

  /** A tail with these lengths that writes x wherever it reaches. */
  function Fillers(lengths: seq<nat>, want: uint32, x: byte): (ds: seq<seq<byte>>)
    ensures OfLengths(ds, lengths)
  {
    seq(|lengths|, i requires 0 <= i < |lengths| =>
      if i == |lengths| - 1 then Filler(lengths[i], NLMSG_DONE, want, x)
      else Filler(lengths[i], RTM_NEWROUTE, Unwanted(want), x))
  }

  lemma FillersAreTail(lengths: seq<nat>, want: uint32, x: byte)
    requires lengths != [] && lengths[|lengths| - 1] >= HDRLEN && forall i :: 0 <= i < |lengths| ==> lengths[i] < TWO_32
    ensures Tail(Fillers(lengths, want, x), want)
    ensures forall i, j :: 0 <= i < |lengths| && HDRLEN <= j < lengths[i] ==> Fillers(lengths, want, x)[i][j] == x
  {
    hide Filler, Messages;
    var ds := Fillers(lengths, want, x);
    forall i | 0 <= i < |lengths|
      ensures if i == |lengths| - 1 then Final(ds[i], want) else Quiet(ds[i], want)
      ensures forall j :: HDRLEN <= j < lengths[i] ==> ds[i][j] == x
    {
      FillerReads(lengths[i], if i == |lengths| - 1 then NLMSG_DONE else RTM_NEWROUTE,
        if i == |lengths| - 1 then want else Unwanted(want), x);
    }
  }

  /** Where some datagram of the list reaches, the last one to do so decides. */
  lemma {:induction false} Overwrites(buf: seq<byte>, ds: seq<seq<byte>>, a: nat, x: byte)
    requires a < |buf| && FitBuffer(ds, buf)
    requires forall i :: 0 <= i < |ds| && a < |ds[i]| ==> ds[i][a] == x
    requires buf[a] == x || exists i :: 0 <= i < |ds| && a < |ds[i]|
    ensures After(buf, ds)[a] == x
    decreases |ds|
  {
    if ds != [] {
      var now := Receive(buf, ds[0]);
      if now[a] != x {
        var i :| 0 <= i < |ds| && a < |ds[i]|;
        assert i > 0 && ds[1..][i - 1] == ds[i];
      }
      assert forall i :: 0 <= i < |ds[1..]| ==> ds[1..][i] == ds[i + 1];
      Overwrites(now, ds[1..], a, x);
    }
  }

  /** Whatever the bytes of a tail with these lengths are, the call returns the gateway that was collected, if and only
      if every one of them ends before the gateway's place in the buffer. */
  lemma GatewayKeptIff(buf: seq<byte>, early: seq<seq<byte>>, before: seq<Msg>, between: seq<Msg>, flags: uint16,
                       want: uint32, scope: byte, gateway: seq<byte>, ifIndex: int, lengths: seq<nat>,
                       ifaces: Interfaces)
    requires Resolvable(gateway, ifIndex, ifaces)
             && Dump(buf, early, before, between, flags, want, scope, gateway, ifIndex, ifaces)
    requires forall i :: 0 <= i < |between| ==> Skipped(between[i], want)
    requires lengths != [] && lengths[|lengths| - 1] >= HDRLEN && |buf| < TWO_32
    requires forall i :: 0 <= i < |lengths| ==> lengths[i] <= |buf|
    ensures
      var d := RouteDatagram(before, between, flags, want, scope, gateway, ifIndex);
      (forall tail :: OfLengths(tail, lengths) && Tail(tail, want) ==>
         Call(buf, Source(early, d, tail), want, NOTHING, ifaces) == Answer(gateway, ifaces[ifIndex]))
      <==> forall i :: 0 <= i < |lengths| ==> lengths[i] <= |Batch(before)| + 32
  {
    hide Call, Batch, Dump, Tail, After, RouteDatagram, Source, Skipped, Fillers;
    var d := RouteDatagram(before, between, flags, want, scope, gateway, ifIndex);
    if forall i :: 0 <= i < |lengths| ==> lengths[i] <= |Batch(before)| + 32 {
      forall tail | OfLengths(tail, lengths) && Tail(tail, want)
        ensures Call(buf, Source(early, d, tail), want, NOTHING, ifaces) == Answer(gateway, ifaces[ifIndex])
      {
        DefaultRouteRecovered(buf, early, before, between, flags, want, scope, gateway, ifIndex, tail, ifaces);
      }
    } else {
      var tail := GatewayLost(buf, early, before, between, flags, want, scope, gateway, ifIndex, lengths, ifaces);
    }
  }

  /** The losing tail: one byte of the gateway comes out as another. */
  lemma GatewayLost(buf: seq<byte>, early: seq<seq<byte>>, before: seq<Msg>, between: seq<Msg>, flags: uint16,
                    want: uint32, scope: byte, gateway: seq<byte>, ifIndex: int, lengths: seq<nat>, ifaces: Interfaces)
    returns (tail: seq<seq<byte>>)
    requires Resolvable(gateway, ifIndex, ifaces)
             && Dump(buf, early, before, between, flags, want, scope, gateway, ifIndex, ifaces)
    requires forall i :: 0 <= i < |between| ==> Skipped(between[i], want)
    requires lengths != [] && lengths[|lengths| - 1] >= HDRLEN && |buf| < TWO_32
    requires forall i :: 0 <= i < |lengths| ==> lengths[i] <= |buf|
    requires exists i :: 0 <= i < |lengths| && lengths[i] > |Batch(before)| + 32
    ensures OfLengths(tail, lengths) && Tail(tail, want)
    ensures
      var d := RouteDatagram(before, between, flags, want, scope, gateway, ifIndex);
      Call(buf, Source(early, d, tail), want, NOTHING, ifaces) != Answer(gateway, ifaces[ifIndex])
  {
    hide Call, Batch, Dump, Tail, After, RouteDatagram, Source, Skipped, Fillers;
    var x: byte := if gateway[0] == 0 then 1 else 0;
    tail := Fillers(lengths, want, x);
    FillersAreTail(lengths, want, x);
    var now := CallAnswers(buf, early, before, between, flags, want, scope, gateway, ifIndex, tail, ifaces);
    var a := |Batch(before)| + 32;
    Overwrites(now, tail, a, x);
    assert Read(After(now, tail), Collected(|Batch(before)|, gateway, ifaces[ifIndex])).gateway.value[0] == x;
  }

  // ---- At an input ----

  /** A dump in two datagrams, received into an empty buffer: the route via 10.0.0.1 comes first; the second datagram
      holds a message of another request before DONE. The call answers 0.0.0.0. */
  lemma GatewayCanBeOverwritten(want: uint32)
    ensures
      var ifaces: Interfaces := map[2 := Interface(2, "eth0")];
      var first := Batch([DefaultRouteMsg(0, want, 0, [10, 0, 0, 1], 2)]);
      var second := Batch([Msg(RTM_NEWROUTE, 0, Unwanted(want), Zeros(24)), Msg(NLMSG_DONE, 0, want, [])]);
      Call(Zeros(BUFFER), [Datagram(first), Datagram(second)], want, NOTHING, ifaces)
      == Route(Fields(Some([0, 0, 0, 0]), 2, "eth0"))
  {
    hide Call, Batch, NlMsg, Messages, PutAll, RouteAttrs;
    var gateway: seq<byte> := [10, 0, 0, 1];
    var ifaces: Interfaces := map[2 := Interface(2, "eth0")];
    var route := DefaultRouteMsg(0, want, 0, gateway, 2);
    var other, done := Msg(RTM_NEWROUTE, 0, Unwanted(want), Zeros(24)), Msg(NLMSG_DONE, 0, want, []);
    var first, second := Batch([route]), Batch([other, done]);
    assert [] + [route] + [] == [route];
    OneMessage(route);
    RouteSize(0, want, 0, gateway, 2);
    TwoMessages(other, done);
    BatchSplits([other, done]);
    SkippedThenDone(other, done, want);
    assert Tail([second], want);
    PayloadAtEnd(other);
    assert second[32..36] == NlMsg(other)[HDRLEN..][16..20] == Zeros(4);
    EmptyBatch();
    var now := CallAnswers(Zeros(BUFFER), [], [], [], 0, want, 0, gateway, 2, [second], ifaces);
    assert Source([], first, [second]) == [Datagram(first), Datagram(second)];
    var last := After(now, [second]);
    assert last == Receive(now, second) by { assert [second][1..] == []; }
    assert last[32..36] == second[32..36] == [0, 0, 0, 0];
  }

  lemma SkippedThenDone(m: Msg, done: Msg, want: uint32)
    requires Skipped(m, want) && IsDone(done, want)
    ensures Concludes([m, done], want)
  {
    assert [m, done][1..] == [done];
  }

  lemma EmptyBatch()
    ensures Batch([]) == []
  {
  }

  lemma OneMessage(m: Msg)
    ensures Batch([m]) == NlMsg(m)
  {
    hide NlMsg;
    EmptyBatch();
    assert [m][1..] == [];
  }

  lemma TwoMessages(m: Msg, o: Msg)
    ensures Batch([m, o]) == NlMsg(m) + NlMsg(o)
  {
    hide NlMsg;
    assert [m, o][1..] == [o];
    OneMessage(o);
  }

  lemma RouteSize(flags: uint16, want: uint32, scope: byte, gateway: seq<byte>, ifIndex: int)
    requires 4 + |gateway| < TWO_16 && 0 < ifIndex < TWO_32
    ensures |NlMsg(DefaultRouteMsg(flags, want, scope, gateway, ifIndex))| == 28 + Align4(4 + |gateway|) + 8
  {
    hide PutAll;
    TwoAttrsBytes(gateway, ifIndex);
  }

  /** A default route out of an interface that cannot be resolved: the rounds of the inner loop never end, and neither
      does the call. */
  lemma UnresolvableLoops(buf: seq<byte>, flags: uint16, want: uint32, scope: byte, gateway: seq<byte>, ifIndex: int,
                          rest: seq<Received>, ifaces: Interfaces)
    requires 4 <= |gateway| && 4 + |gateway| < TWO_16 && 0 < ifIndex < TWO_32 && ifIndex !in ifaces
    requires |Batch([DefaultRouteMsg(flags, want, scope, gateway, ifIndex)])| <= |buf|
    ensures
      var d := Batch([DefaultRouteMsg(flags, want, scope, gateway, ifIndex)]);
      && Forever(InnerStep(Receive(buf, d), |d|, ifaces), On(28, NOTHING))
      && Call(buf, [Datagram(d)] + rest, want, NOTHING, ifaces) == Endless
  {
    hide Batch, WalkDatagram, Messages, PutAll, RouteAttrs, NlMsg, Forever, TakeAttrs, WalkAttrs, Receive, Unusable,
         ReadNative32;
    var m := DefaultRouteMsg(flags, want, scope, gateway, ifIndex);
    var d := Batch([m]);
    var now := Receive(buf, d);
    ReceivedFront(buf, d);
    OneMessage(m);
    RouteFits(flags, want, scope, gateway, ifIndex);
    RoutePayloadWalks(0, scope, None, Some(gateway), ifIndex);
    UnresolvableUnusable(gateway, ifIndex, ifaces);
    PayloadAtEnd(m);
    SubSlice(now, 0, |d|, 28, |d|);
    SubSlice(d, HDRLEN, |d|, 12, |d| - HDRLEN);
    assert now[28..|d|] == m.payload[12..];
    InnerLoopForeverIff(now, 28, |d|, NOTHING, ifaces);
    BatchSplits([m]);
    StuckIff(WalkAttrs(m.payload[12..]), Read(now, NOTHING), ifaces);
    WalkRefines(now, |d|, 0, want, NOTHING, ifaces);
    assert ([Datagram(d)] + rest)[0] == Datagram(d);
  }

  lemma UnresolvableUnusable(gateway: seq<byte>, ifIndex: int, ifaces: Interfaces)
    requires 0 < ifIndex < TWO_32 && ifIndex !in ifaces
    ensures
      var attrs := RouteAttrs(0, None, Some(gateway), ifIndex);
      exists i :: 0 <= i < |attrs| && Unusable(attrs[i], ifaces)
  {
    hide ReadNative32;
    var oif := LittleEndian(ifIndex, 4);
    ReadsNative(ifIndex);
    assert oif[0..4] == oif;
    assert Unusable(RouteAttrs(0, None, Some(gateway), ifIndex)[1], ifaces);
  }

  /** Sixteen zero bytes: a message of length 0 that answers no request. The loop over messages has no end. */
  lemma ZeroBytesLoop(buf: seq<byte>, rest: seq<Received>, ifaces: Interfaces)
    requires |buf| >= HDRLEN
    ensures Forever(OuterStep(Receive(buf, Zeros(16)), 16, 1, ifaces), On(0, NOTHING))
    ensures Call(buf, [Datagram(Zeros(16))] + rest, 1, NOTHING, ifaces) == Endless
  {
    hide WalkDatagram, OuterRound, Receive, Stalls, Zeros;
    var now := Receive(buf, Zeros(16));
    ReceivedFront(buf, Zeros(16));
    ZerosStall(now);
    StallsIff(now, 16, 1, 0, NOTHING, ifaces);
    var step := OuterStep(now, 16, 1, ifaces);
    forall k: nat ensures Iterate(step, k, On(0, NOTHING)).On? {
      FixedForEver(step, k, On(0, NOTHING));
    }
    WalkDatagramIs(now, 16, 0, 1, NOTHING, ifaces);
    assert ([Datagram(Zeros(16))] + rest)[0] == Datagram(Zeros(16));
  }

  lemma ZerosStall(now: seq<byte>)
    requires |now| >= HDRLEN && now[0..16] == Zeros(16)
    ensures Stalls(now, 16, 1, 0)
  {
    hide ReadNative32, ReadNative16;
    SubSlice(now, 0, 16, 0, 4);
    SubSlice(now, 0, 16, 8, 12);
    assert Zeros(16)[0..4] == Zeros(4) && Zeros(16)[8..12] == Zeros(4);
    ZeroReads();
  }

  lemma ZeroReads()
    ensures ReadNative32(Zeros(4)) == 0
  {
    Widths();
    LittleEndianReads(0, 4);
    assert LittleEndian(0, 4) == Zeros(4);
  }

  /** A wanted route message of 32 bytes whose length field says 70000, with an attribute of length 65532. */
  function Oversized(want: uint32): (d: seq<byte>)
    ensures |d| == 32
  {
    LittleEndian(70000, 4) + LittleEndian(RTM_NEWROUTE, 2) + LittleEndian(0, 2) + LittleEndian(want, 4)
      + LittleEndian(0, 4)
    + RouteHeader(0, 0) + LittleEndian(65532, 2) + LittleEndian(RTA_DST, 2)
  }

  /** That datagram makes the call index past its 65536-byte buffer. */
  lemma OversizedCrashes(buf: seq<byte>, want: uint32, rest: seq<Received>, ifaces: Interfaces)
    requires |buf| == BUFFER
    ensures Call(buf, [Datagram(Oversized(want))] + rest, want, NOTHING, ifaces) == Crash
  {
    hide WalkDatagram, OuterRound, Receive, AttrLoop, InnerRound, Overruns, ReadNative16, ReadNative32, Oversized;
    var d := Oversized(want);
    var now := Receive(buf, d);
    ReceivedFront(buf, d);
    OversizedReads(now, want);
    OversizedOverruns(now, want);
    OverrunsIff(now, 70000, 28, NOTHING, ifaces);
    AttrLoopIs(now, 28, 70000, NOTHING, ifaces);
    OuterPanicsIff(now, 32, want, 0, NOTHING, ifaces);
    WalkDatagramIs(now, 32, 0, want, NOTHING, ifaces);
    assert ([Datagram(d)] + rest)[0] == Datagram(d);
  }

  lemma OversizedParts(want: uint32)
    ensures
      var d := Oversized(want);
      && d[0..4] == LittleEndian(70000, 4) && d[4..6] == LittleEndian(RTM_NEWROUTE, 2)
         && d[8..12] == LittleEndian(want, 4)
      && d[16..28] == RouteHeader(0, 0) && d[28..30] == LittleEndian(65532, 2)
  {
    hide RouteHeader, LittleEndian;
  }

  lemma OversizedReads(now: seq<byte>, want: uint32)
    requires |now| == BUFFER && now[0..32] == Oversized(want)
    ensures ReadNative32(now[0..4]) == 70000 && ReadNative16(now[4..6]) == RTM_NEWROUTE
            && ReadNative32(now[8..12]) == want
    ensures now[17] == 0 && now[20] == RT_TABLE_MAIN
  {
    hide RouteHeader, Oversized, LittleEndian, ReadNative16, ReadNative32;
    ReadsNative(70000);
    ReadsNative16(RTM_NEWROUTE);
    ReadsNative(want);
    OversizedParts(want);
    SubSlice(now, 0, 32, 0, 4);
    SubSlice(now, 0, 32, 4, 6);
    SubSlice(now, 0, 32, 8, 12);
    SubSlice(now, 0, 32, 16, 28);
    HeaderBytes01();
    assert now[17] == now[16..28][1] && now[20] == now[16..28][4];
  }

  lemma OversizedOverruns(now: seq<byte>, want: uint32)
    requires |now| == BUFFER && now[0..32] == Oversized(want)
    ensures Overruns(now, 70000, 28)
  {
    hide RouteHeader, Oversized, LittleEndian, ReadNative16;
    ReadsNative16(65532);
    OversizedParts(want);
    SubSlice(now, 0, 32, 28, 30);
  }

  lemma HeaderBytes01()
    ensures RouteHeader(0, 0)[1] == 0 && RouteHeader(0, 0)[4] == RT_TABLE_MAIN
  {
  }

  /** Two default routes in one dump, the first via 10.0.0.1 on interface 2, the second straight out of interface 3:
      the call answers with the gateway of the first and the interface of the second. */
  lemma RoutesGetMixed(buf: seq<byte>, want: uint32, rest: seq<Received>)
    requires |buf| == BUFFER
    ensures
      var ifaces: Interfaces := map[2 := Interface(2, "eth0"), 3 := Interface(3, "tun1")];
      var second := Msg(RTM_NEWROUTE, 0, want, RouteHeader(0, 253) + PutAll([], RouteAttrs(0, None, None, 3)));
      var d := Batch([DefaultRouteMsg(0, want, 0, [10, 0, 0, 1], 2), second, Msg(NLMSG_DONE, 0, want, [])]);
      Call(buf, [Datagram(d)] + rest, want, NOTHING, ifaces) == Route(Fields(Some([10, 0, 0, 1]), 3, "tun1"))
  {
    hide WalkDatagram, Messages, PutAll, NlMsg, WalkAttrs, Receive, ReadNative32, RouteAttrs, TakeAttrs, Batch;
    var gateway: seq<byte> := [10, 0, 0, 1];
    var ifaces: Interfaces := map[2 := Interface(2, "eth0"), 3 := Interface(3, "tun1")];
    var first := DefaultRouteMsg(0, want, 0, gateway, 2);
    var second := Msg(RTM_NEWROUTE, 0, want, RouteHeader(0, 253) + PutAll([], RouteAttrs(0, None, None, 3)));
    var done := Msg(NLMSG_DONE, 0, want, []);
    var ms := [first, second, done];
    var d := Batch(ms);
    MixedFits(want, gateway);
    RoutePayloadWalks(0, 0, None, Some(gateway), 2);
    RoutePayloadWalks(0, 253, None, None, 3);
    BatchSplits(ms);
    var now := Receive(buf, d);
    ReceivedFront(buf, d);
    var none := Fields(None, 0, "");
    var f1, f2 := Fields(Some(gateway), 2, "eth0"), Fields(Some(gateway), 3, "tun1");
    MixedAttrs(gateway, ifaces);
    assert TakeRoute(first, want, none, ifaces) == Outcome.Going(f1);
    assert TakeRoute(second, want, f1, ifaces) == Outcome.Going(f2);
    assert TakeRoute(done, want, f2, ifaces) == Returned(f2);
    ThreeMessages(ms, want, none, f1, f2, ifaces);
    WalkRefines(now, |d|, 0, want, NOTHING, ifaces);
    CallUnfolds(buf, d, rest, want, NOTHING, ifaces);
  }

  lemma MixedFits(want: uint32, gateway: seq<byte>)
    requires |gateway| == 4
    ensures
      var first := DefaultRouteMsg(0, want, 0, gateway, 2);
      var second := Msg(RTM_NEWROUTE, 0, want, RouteHeader(0, 253) + PutAll([], RouteAttrs(0, None, None, 3)));
      && Sendable(first) && Sendable(second) && |Batch([first, second, Msg(NLMSG_DONE, 0, want, [])])| <= BUFFER
  {
    hide PutAll, NlMsg, WalkAttrs;
    var oif := LittleEndian(3, 4);
    RouteSendable(0, want, 0, gateway, 2);
    RouteSize(0, want, 0, gateway, 2);
    RoutePayloadWalks(0, 253, None, None, 3);
    assert RouteAttrs(0, None, None, 3) == [] + [Attr(RTA_OIF, oif)];
    PutNone();
    PutOneMore([], RTA_OIF, oif);
    var first := DefaultRouteMsg(0, want, 0, gateway, 2);
    var second := Msg(RTM_NEWROUTE, 0, want, RouteHeader(0, 253) + PutAll([], RouteAttrs(0, None, None, 3)));
    var done := Msg(NLMSG_DONE, 0, want, []);
    assert [first, second, done] == [first] + [second, done];
    BatchCons(first, [second, done]);
    TwoMessages(second, done);
  }

  lemma MixedAttrs(gateway: seq<byte>, ifaces: Interfaces)
    requires |gateway| == 4 && ifaces == map[2 := Interface(2, "eth0"), 3 := Interface(3, "tun1")]
    ensures TakeAttrs(RouteAttrs(0, None, Some(gateway), 2), Fields(None, 0, ""), ifaces) ==
            Some(Fields(Some(gateway), 2, "eth0"))
    ensures TakeAttrs(RouteAttrs(0, None, None, 3), Fields(Some(gateway), 2, "eth0"), ifaces) ==
            Some(Fields(Some(gateway), 3, "tun1"))
  {
    hide ReadNative32, LittleEndian;
    ReadsNative(2);
    ReadsNative(3);
    var two, three := LittleEndian(2, 4), LittleEndian(3, 4);
    assert two[0..4] == two && three[0..4] == three;
    var a, b, c := Attr(RTA_GATEWAY, gateway), Attr(RTA_OIF, two), Attr(RTA_OIF, three);
    assert RouteAttrs(0, None, Some(gateway), 2) == [a, b] && RouteAttrs(0, None, None, 3) == [c];
    assert [a, b][1..] == [b] && [b][1..] == [] && [c][1..] == [];
    var f := Fields(Some(gateway), 0, "");
    assert TakeAttrs([b], f, ifaces) == TakeAttrs([], Fields(Some(gateway), 2, "eth0"), ifaces);
    assert TakeAttrs([c], Fields(Some(gateway), 2, "eth0"), ifaces) ==
           TakeAttrs([], Fields(Some(gateway), 3, "tun1"), ifaces);
  }

  lemma ThreeMessages(ms: seq<Msg>, want: uint32, f: Fields, f1: Fields, f2: Fields, ifaces: Interfaces)
    requires |ms| == 3 && AllProper(ms, want)
    requires TakeRoute(ms[0], want, f, ifaces) == Outcome.Going(f1)
             && TakeRoute(ms[1], want, f1, ifaces) == Outcome.Going(f2)
    requires TakeRoute(ms[2], want, f2, ifaces).Returned?
    ensures TakeRoutes(ms, want, f, ifaces) == TakeRoute(ms[2], want, f2, ifaces)
  {
    hide TakeRoute;
    assert ms == [ms[0], ms[1]] + [ms[2]];
    assert AllProper([ms[0], ms[1]], want);
    TakeRoutesSnoc([ms[0], ms[1]], ms[2], want, f, ifaces);
    assert [ms[0], ms[1]] == [ms[0]] + [ms[1]];
    assert AllProper([ms[0]], want);
    TakeRoutesSnoc([ms[0]], ms[1], want, f, ifaces);
    assert [ms[0]] == [] + [ms[0]];
    TakeRoutesSnoc([], ms[0], want, f, ifaces);
  }
}
