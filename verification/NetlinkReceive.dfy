/** The receive loops over arbitrary datagrams: recvAcks of internal/netlink/socket.go and
    recvEstablishedTCPRemoteIP of internal/netlink/inet_diag.go. */
module NetlinkReceive {
  import opened Bytes
  import opened Netlink

  /** One call of recvfrom; a source that runs dry times out. */
  datatype Received = Datagram(bytes: seq<byte>) | TimedOut | RecvError

  datatype Failure = Timeout | RecvFailed | InvalidReply | ShortError | Errno(errno: int)

  function Signed32(v: uint32): int
  {
    if v >= 0x8000_0000 then v - TWO_32 else v
  }

  /** The errno of an NLMSG_ERROR payload. */
  function ErrnoOf(m: Msg): int
    requires |m.payload| >= 4
  {
    Signed32(ReadNative32(m.payload[0..4]))
  }

  /** A reply that acknowledges its request. */
  predicate Acknowledges(m: Msg)
  {
    m.kind == NLMSG_ERROR && |m.payload| >= 4 && ErrnoOf(m) == 0
  }

  // ---- recvAcks ----

  /** Which wanted sequences are acknowledged so far, and why the walk stopped if it did. */
  datatype Progress = Progress(acked: set<uint32>, failure: Option<Failure>)

  function TakeAck(m: Msg, wanted: set<uint32>, acked: set<uint32>): Progress
  {
    if m.kind != NLMSG_ERROR then Progress(acked, None)
    else if |m.payload| < 4 then Progress(acked, Some(ShortError))
    else if ErrnoOf(m) != 0 then Progress(acked, Some(Errno(ErrnoOf(m))))
    else Progress(if m.sequence in wanted then acked + {m.sequence} else acked, None)
  }

  /** The reference reading of one datagram: its messages in order, then its end. */
  function TakeAcks(messages: seq<Msg>, clean: bool, wanted: set<uint32>, acked: set<uint32>): Progress
  {
    if messages == [] then Progress(acked, if clean then None else Some(InvalidReply))
    else
      var p := TakeAck(messages[0], wanted, acked);
      if p.failure.Some? then p else TakeAcks(messages[1..], clean, wanted, p.acked)
  }

  function AckDatagram(d: seq<byte>, wanted: set<uint32>, acked: set<uint32>): Progress
  {
    TakeAcks(Messages(d).messages, Messages(d).clean, wanted, acked)
  }

  /** None means success. */
  function AckAll(source: seq<Received>, wanted: set<uint32>, acked: set<uint32>): Option<Failure>
  {
    if wanted <= acked then None
    else if source == [] || source[0].TimedOut? then Some(Timeout)
    else if source[0].RecvError? then Some(RecvFailed)
    else
      var p := AckDatagram(source[0].bytes, wanted, acked);
      if p.failure.Some? then p.failure else AckAll(source[1..], wanted, p.acked)
  }

  lemma AckStep(d: seq<byte>, off: nat, wanted: set<uint32>, acked: set<uint32>)
    requires off + HDRLEN <= |d| && FrontFits(d[off..])
    ensures
      var p := TakeAck(FrontMsg(d[off..]), wanted, acked);
      var next := off + Align4(MsgLength(d[off..]));
      && next <= |d| && |FrontMsg(d[off..]).payload| == MsgLength(d[off..]) - HDRLEN
      && AckDatagram(d[off..], wanted, acked) == if p.failure.Some? then p else AckDatagram(d[next..], wanted, p.acked)
  {
    var rest := Messages(d[off..][Align4(MsgLength(d[off..]))..]);
    assert d[off..][Align4(MsgLength(d[off..]))..] == d[off + Align4(MsgLength(d[off..]))..];
    assert Messages(d[off..]).messages[1..] == rest.messages;
  }

  /** At the end of a datagram, or at a length that does not fit, the walk is over. */
  lemma AckEnd(d: seq<byte>, off: nat, wanted: set<uint32>, acked: set<uint32>)
    requires off <= |d| && (off + HDRLEN > |d| || !FrontFits(d[off..]))
    ensures AckDatagram(d[off..], wanted, acked) ==
            Progress(acked, if off + HDRLEN > |d| then None else Some(InvalidReply))
  {
  }

  lemma AckNext(source: seq<Received>, next: nat, wanted: set<uint32>, acked: set<uint32>)
    requires next < |source| && source[next].Datagram? && !(wanted <= acked)
    ensures
      var p := AckDatagram(source[next].bytes, wanted, acked);
      AckAll(source[next..], wanted, acked) ==
      if p.failure.Some? then p.failure else AckAll(source[next + 1..], wanted, p.acked)
  {
    assert source[next..][1..] == source[next + 1..];
  }

  /** The map of wanted sequences and the counter, against the set of those acknowledged. */
  ghost predicate Tracks(expected: map<uint32, bool>, got: nat, wanted: set<uint32>, acked: set<uint32>)
  {
    && expected.Keys == wanted && acked <= wanted && got == |acked|
    && forall q :: q in expected ==> (expected[q] <==> q in acked)
  }

  lemma TracksMark(expected: map<uint32, bool>, got: nat, wanted: set<uint32>, acked: set<uint32>, m: Msg)
    requires Tracks(expected, got, wanted, acked) && Acknowledges(m)
    ensures m.sequence in expected && !expected[m.sequence] ==>
              Tracks(expected[m.sequence := true], got + 1, wanted, TakeAck(m, wanted, acked).acked)
    ensures !(m.sequence in expected && !expected[m.sequence]) ==> TakeAck(m, wanted, acked).acked == acked
  {
    if m.sequence in acked {
      assert acked + {m.sequence} == acked;
    }
  }

  lemma TracksAll(expected: map<uint32, bool>, got: nat, wanted: set<uint32>, acked: set<uint32>)
    requires Tracks(expected, got, wanted, acked)
    ensures got >= |expected.Keys| <==> wanted <= acked
  {
    if got >= |wanted| {
      SubsetOfSameSize(acked, wanted);
    }
    if wanted <= acked {
      assert wanted == acked;
    }
  }

  function Wanted(want: seq<uint32>): set<uint32>
  {
    set q | q in want
  }

  method Expect(want: seq<uint32>) returns (expected: map<uint32, bool>)
    ensures Tracks(expected, 0, Wanted(want), {})
  {
    expected := map[];
    for i := 0 to |want|
      invariant expected.Keys == Wanted(want[..i]) && forall q :: q in expected ==> !expected[q]
    {
      expected := expected[want[i] := false];
    }
    assert want[..|want|] == want;
  }

  method RecvAcks(source: seq<Received>, want: seq<uint32>) returns (failure: Option<Failure>)
    ensures failure == AckAll(source, Wanted(want), {})
  {
    hide AckDatagram, Messages, Tracks, AckAll, Wanted, MsgLength, FrontMsg;
    var expected := Expect(want);
    ghost var wanted := Wanted(want);
    ghost var acked: set<uint32> := {};
    var got, next := 0, 0;
    while got < |expected.Keys|
      invariant next <= |source| && Tracks(expected, got, wanted, acked)
      invariant AckAll(source, wanted, {}) == AckAll(source[next..], wanted, acked)
      decreases |source| - next
    {
      TracksAll(expected, got, wanted, acked);
      if next == |source| || source[next].TimedOut? {
        AckStops(source, next, wanted, acked);
        return Some(Timeout);
      }
      if source[next].RecvError? {
        AckStops(source, next, wanted, acked);
        return Some(RecvFailed);
      }
      var d := source[next].bytes;
      ghost var before := acked;
      AckNext(source, next, wanted, acked);
      var off := 0;
      assert d[0..] == d;
      while off + HDRLEN <= |d|
        invariant 0 <= off <= |d| && Tracks(expected, got, wanted, acked)
        invariant AckDatagram(d, wanted, before) == AckDatagram(d[off..], wanted, acked)
        decreases |d| - off
      {
        var msgLen := MsgLength(d[off..]);
        if msgLen < HDRLEN || off + Align4(msgLen) > |d| {
          AckEnd(d, off, wanted, acked);
          return Some(InvalidReply);
        }
        AckStep(d, off, wanted, acked);
        var m := FrontMsg(d[off..]);
        if m.kind == NLMSG_ERROR {
          if msgLen < HDRLEN + 4 {
            return Some(ShortError);
          }
          var errno := ErrnoOf(m);
          if errno != 0 {
            return Some(Errno(errno));
          }
          TracksMark(expected, got, wanted, acked, m);
          ghost var now := TakeAck(m, wanted, acked).acked;
          if m.sequence in expected && !expected[m.sequence] {
            expected := expected[m.sequence := true];
            got := got + 1;
          }
          acked := now;
        }
        off := off + Align4(msgLen);
      }
      AckEnd(d, off, wanted, acked);
      next := next + 1;
    }
    TracksAll(expected, got, wanted, acked);
    AckStops(source, next, wanted, acked);
    return None;
  }

  lemma AckStops(source: seq<Received>, next: nat, wanted: set<uint32>, acked: set<uint32>)
    requires next <= |source|
    ensures wanted <= acked ==> AckAll(source[next..], wanted, acked) == None
    ensures !(wanted <= acked) && (next == |source| || source[next].TimedOut?) ==>
              AckAll(source[next..], wanted, acked) == Some(Timeout)
    ensures !(wanted <= acked) && next < |source| && source[next].RecvError? ==>
              AckAll(source[next..], wanted, acked) == Some(RecvFailed)
  {
  }

  lemma SubsetOfSameSize(a: set<uint32>, b: set<uint32>)
    requires a <= b && |a| >= |b|
    ensures a == b
  {
    if x :| x in b && x !in a {
      SubsetIsSmaller(a, b - {x});
    }
  }

  lemma {:induction false} SubsetIsSmaller(a: set<uint32>, b: set<uint32>)
    requires a <= b
    ensures |a| <= |b|
    decreases a
  {
    if x :| x in a {
      SubsetIsSmaller(a - {x}, b - {x});
    }
  }

  /** The messages of every datagram received, in order. */
  function Stream(source: seq<Received>): seq<Msg>
  {
    if source == [] || !source[0].Datagram? then [] else Messages(source[0].bytes).messages + Stream(source[1..])
  }

  /** Success means that every wanted sequence was acknowledged by a zero-errno reply that was received. */
  lemma {:induction false} SuccessMeansAcknowledged(source: seq<Received>, wanted: set<uint32>, acked: set<uint32>,
                                                    q: uint32)
    requires AckAll(source, wanted, acked) == None && q in wanted && q !in acked
    ensures exists m :: m in Stream(source) && Acknowledges(m) && m.sequence == q
  {
    var messages := Messages(source[0].bytes).messages;
    var p := AckDatagram(source[0].bytes, wanted, acked);
    if q in p.acked {
      NewAckSeen(messages, Messages(source[0].bytes).clean, wanted, acked, q);
      var m :| m in messages && Acknowledges(m) && m.sequence == q;
      assert m in Stream(source);
    } else {
      SuccessMeansAcknowledged(source[1..], wanted, p.acked, q);
      var m :| m in Stream(source[1..]) && Acknowledges(m) && m.sequence == q;
      assert m in Stream(source);
    }
  }

  lemma {:induction false} NewAckSeen(messages: seq<Msg>, clean: bool, wanted: set<uint32>, acked: set<uint32>,
                                      q: uint32)
    requires q !in acked && q in TakeAcks(messages, clean, wanted, acked).acked
    ensures exists m :: m in messages && Acknowledges(m) && m.sequence == q
  {
    var p := TakeAck(messages[0], wanted, acked);
    if q in p.acked {
      assert messages[0] in messages && Acknowledges(messages[0]);
    } else {
      NewAckSeen(messages[1..], clean, wanted, p.acked, q);
      var m :| m in messages[1..] && Acknowledges(m) && m.sequence == q;
      assert m in messages;
    }
  }

  /** Conversely, when every datagram is well formed, no error reply is received and every wanted sequence is
      acknowledged somewhere, the call succeeds. */
  lemma {:induction false} AcknowledgedMeansSuccess(source: seq<Received>, wanted: set<uint32>, acked: set<uint32>)
    requires forall i :: 0 <= i < |source| ==> source[i].Datagram? && Messages(source[i].bytes).clean
    requires forall m :: m in Stream(source) && m.kind == NLMSG_ERROR ==> Acknowledges(m)
    requires forall q :: q in wanted ==>
               q in acked || exists m :: m in Stream(source) && Acknowledges(m) && m.sequence == q
    ensures AckAll(source, wanted, acked) == None
  {
    hide TakeAcks, Messages, Acknowledges;
    if !(wanted <= acked) {
      var q :| q in wanted && q !in acked;
      assert source != [];
      var messages := Messages(source[0].bytes).messages;
      assert forall m :: m in messages ==> m in Stream(source);
      AllTaken(messages, wanted, acked);
      var p := AckDatagram(source[0].bytes, wanted, acked);
      forall m | m in Stream(source[1..]) ensures m in Stream(source) { }
      forall x | x in wanted
        ensures x in p.acked || exists m :: m in Stream(source[1..]) && Acknowledges(m) && m.sequence == x
      {
        if x !in p.acked {
          var m :| m in Stream(source) && Acknowledges(m) && m.sequence == x;
          assert m in messages || m in Stream(source[1..]);
        }
      }
      AcknowledgedMeansSuccess(source[1..], wanted, p.acked);
    }
  }

  lemma {:induction false} AllTaken(messages: seq<Msg>, wanted: set<uint32>, acked: set<uint32>)
    requires forall m :: m in messages && m.kind == NLMSG_ERROR ==> Acknowledges(m)
    ensures TakeAcks(messages, true, wanted, acked).failure == None
    ensures acked <= TakeAcks(messages, true, wanted, acked).acked
    ensures forall m :: m in messages && Acknowledges(m) && m.sequence in wanted ==>
              m.sequence in TakeAcks(messages, true, wanted, acked).acked
  {
    if messages != [] {
      assert messages[0] in messages;
      var p := TakeAck(messages[0], wanted, acked);
      assert forall m :: m in messages[1..] ==> m in messages;
      AllTaken(messages[1..], wanted, p.acked);
      assert forall m :: m in messages ==> m == messages[0] || m in messages[1..];
    }
  }

  // ---- recvEstablishedTCPRemoteIP ----

  const SOCK_DIAG_BY_FAMILY: uint16 := 20
  const TCP_ESTABLISHED: byte := 1

  /** The remote address of an established IPv4 TCP socket on this local port. */
  function Remote(m: Msg, port: uint16): Option<uint32>
  {
    if m.kind == SOCK_DIAG_BY_FAMILY && |m.payload| >= 28
       && m.payload[0] == AF_INET && m.payload[1] == TCP_ESTABLISHED && ReadUint16(m.payload[4..6]) == port
    then Some(ReadUint32(m.payload[24..28])) else None
  }

  predicate IsDone(m: Msg, want: uint32)
  {
    m.sequence == want && m.kind == NLMSG_DONE
  }

  /** What one message contributes. */
  function Own(m: Msg, want: uint32, port: uint16): seq<uint32>
  {
    if m.sequence == want && Remote(m, port).Some? then [Remote(m, port).value] else []
  }

  /** The addresses that a list of messages contributes, in order. */
  function Selected(messages: seq<Msg>, want: uint32, port: uint16): seq<uint32>
  {
    if messages == [] then [] else Own(messages[0], want, port) + Selected(messages[1..], want, port)
  }

  /** The messages before the first DONE. */
  function BeforeDone(messages: seq<Msg>, want: uint32): (r: seq<Msg>)
    ensures |r| <= |messages|
  {
    if messages == [] || IsDone(messages[0], want) then [] else [messages[0]] + BeforeDone(messages[1..], want)
  }

  datatype Diag = Going(ips: seq<uint32>) | Finished(ips: seq<uint32>) | Failed(failure: Failure)

  function TakeDiag(m: Msg, want: uint32, port: uint16, ips: seq<uint32>): Diag
  {
    if m.sequence != want then Going(ips)
    else if m.kind == NLMSG_DONE then Finished(ips)
    else if m.kind == NLMSG_ERROR then
      if |m.payload| < 4 then Failed(ShortError)
      else if ErrnoOf(m) != 0 then Failed(Errno(ErrnoOf(m)))
      else Going(ips)
    else if Remote(m, port).Some? then Going(ips + [Remote(m, port).value])
    else Going(ips)
  }

  function TakeDiags(messages: seq<Msg>, clean: bool, want: uint32, port: uint16, ips: seq<uint32>): Diag
  {
    if messages == [] then (if clean then Going(ips) else Failed(InvalidReply))
    else
      var p := TakeDiag(messages[0], want, port, ips);
      if p.Going? then TakeDiags(messages[1..], clean, want, port, p.ips) else p
  }

  function DiagDatagram(d: seq<byte>, want: uint32, port: uint16, ips: seq<uint32>): Diag
  {
    TakeDiags(Messages(d).messages, Messages(d).clean, want, port, ips)
  }

  function DiagAll(source: seq<Received>, want: uint32, port: uint16, ips: seq<uint32>): Diag
  {
    if source == [] || source[0].TimedOut? then Failed(Timeout)
    else if source[0].RecvError? then Failed(RecvFailed)
    else
      var p := DiagDatagram(source[0].bytes, want, port, ips);
      if p.Going? then DiagAll(source[1..], want, port, p.ips) else p
  }

  lemma DiagStep(d: seq<byte>, pos: nat, want: uint32, port: uint16, ips: seq<uint32>)
    requires pos + HDRLEN <= |d| && FrontFits(d[pos..])
    ensures
      var p := TakeDiag(FrontMsg(d[pos..]), want, port, ips);
      var next := pos + Align4(MsgLength(d[pos..]));
      && next <= |d|
      && DiagDatagram(d[pos..], want, port, ips) == if p.Going? then DiagDatagram(d[next..], want, port, p.ips) else p
  {
    var rest := Messages(d[pos..][Align4(MsgLength(d[pos..]))..]);
    assert d[pos..][Align4(MsgLength(d[pos..]))..] == d[pos + Align4(MsgLength(d[pos..]))..];
    assert Messages(d[pos..]).messages[1..] == rest.messages;
  }

  lemma DiagEnd(d: seq<byte>, pos: nat, want: uint32, port: uint16, ips: seq<uint32>)
    requires pos <= |d| && (pos + HDRLEN > |d| || !FrontFits(d[pos..]))
    ensures DiagDatagram(d[pos..], want, port, ips) == if pos + HDRLEN > |d| then Going(ips) else Failed(InvalidReply)
  {
  }

  lemma DiagNext(source: seq<Received>, next: nat, want: uint32, port: uint16, ips: seq<uint32>)
    requires next <= |source|
    ensures next == |source| || source[next].TimedOut? ==> DiagAll(source[next..], want, port, ips) == Failed(Timeout)
    ensures next < |source| && source[next].RecvError? ==>
              DiagAll(source[next..], want, port, ips) == Failed(RecvFailed)
    ensures next < |source| && source[next].Datagram? ==>
              var p := DiagDatagram(source[next].bytes, want, port, ips);
              DiagAll(source[next..], want, port, ips) ==
              if p.Going? then DiagAll(source[next + 1..], want, port, p.ips) else p
  {
    if next < |source| {
      assert source[next..][1..] == source[next + 1..];
    }
  }

  method RecvEstablished(source: seq<Received>, want: uint32, port: uint16) returns (r: Diag)
    ensures r == DiagAll(source, want, port, []) && !r.Going?
  {
    hide DiagAll, DiagDatagram, Messages;
    var result: seq<uint32> := [];
    var next := 0;
    while true
      invariant next <= |source|
      invariant DiagAll(source, want, port, []) == DiagAll(source[next..], want, port, result)
      decreases |source| - next
    {
      DiagNext(source, next, want, port, result);
      if next == |source| || source[next].TimedOut? {
        return Failed(Timeout);
      }
      if source[next].RecvError? {
        return Failed(RecvFailed);
      }
      var d := source[next].bytes;
      ghost var before := result;
      var pos := 0;
      assert d[0..] == d;
      while pos + HDRLEN <= |d|
        invariant 0 <= pos <= |d|
        invariant DiagDatagram(d, want, port, before) == DiagDatagram(d[pos..], want, port, result)
        decreases |d| - pos
      {
        var msgLength := MsgLength(d[pos..]);
        if msgLength < HDRLEN {
          DiagEnd(d, pos, want, port, result);
          return Failed(InvalidReply);
        }
        var nextMsgPos := pos + Align4(msgLength);
        if nextMsgPos > |d| {
          DiagEnd(d, pos, want, port, result);
          return Failed(InvalidReply);
        }
        DiagStep(d, pos, want, port, result);
        var m := FrontMsg(d[pos..]);
        if m.sequence != want {
          pos := nextMsgPos;
          continue;
        }
        if m.kind == NLMSG_DONE {
          return Finished(result);
        } else if m.kind == NLMSG_ERROR {
          if msgLength < HDRLEN + 4 {
            return Failed(ShortError);
          }
          if ErrnoOf(m) != 0 {
            return Failed(Errno(ErrnoOf(m)));
          }
        } else if m.kind == SOCK_DIAG_BY_FAMILY {
          if |m.payload| >= 28 {
            if m.payload[0] == AF_INET && m.payload[1] == TCP_ESTABLISHED && ReadUint16(m.payload[4..6]) == port {
              result := result + [ReadUint32(m.payload[24..28])];
            }
          }
        }
        pos := nextMsgPos;
      }
      DiagEnd(d, pos, want, port, result);
      next := next + 1;
    }
  }

  /** The result is exactly the addresses of the messages before the first DONE, in order. */
  lemma {:induction false} FinishedIsSelected(source: seq<Received>, want: uint32, port: uint16, ips: seq<uint32>)
    requires DiagAll(source, want, port, ips).Finished?
    ensures DiagAll(source, want, port, ips).ips == ips + Selected(BeforeDone(Stream(source), want), want, port)
    ensures BeforeDone(Stream(source), want) != Stream(source)
  {
    hide Selected, BeforeDone, Messages, TakeDiags;
    var messages, clean := Messages(source[0].bytes).messages, Messages(source[0].bytes).clean;
    var rest := Stream(source[1..]);
    DiagsSelect(messages, clean, want, port, ips);
    var p := DiagDatagram(source[0].bytes, want, port, ips);
    DoneIn(messages, rest, want);
    if p.Going? {
      FinishedIsSelected(source[1..], want, port, p.ips);
      assert (messages + BeforeDone(rest, want))[|messages|..] == BeforeDone(rest, want)
        && (messages + rest)[|messages|..] == rest;
      SelectedAppends(messages, BeforeDone(rest, want), want, port);
      assert (ips + Selected(messages, want, port)) + Selected(BeforeDone(rest, want), want, port)
             == ips + (Selected(messages, want, port) + Selected(BeforeDone(rest, want), want, port));
    }
  }

  lemma ConsSelects(m: Msg, rest: seq<Msg>, want: uint32, port: uint16)
    ensures Selected([m] + rest, want, port) == Own(m, want, port) + Selected(rest, want, port)
    ensures BeforeDone([m] + rest, want) == if IsDone(m, want) then [] else [m] + BeforeDone(rest, want)
  {
    assert ([m] + rest)[1..] == rest;
  }

  lemma StepSelects(m: Msg, want: uint32, port: uint16, ips: seq<uint32>)
    ensures
      var p := TakeDiag(m, want, port, ips);
      && (p.Going? ==> p.ips == ips + Own(m, want, port) && !IsDone(m, want))
      && (p.Finished? ==> p.ips == ips && IsDone(m, want))
  {
  }

  /** What the walk over a list of messages has collected on top of ips. */
  ghost predicate Collects(p: Diag, messages: seq<Msg>, want: uint32, port: uint16, ips: seq<uint32>)
  {
    && (p.Going? ==> p.ips == ips + Selected(messages, want, port) && BeforeDone(messages, want) == messages)
    && (p.Finished? ==>
          && p.ips == ips + Selected(BeforeDone(messages, want), want, port)
          && BeforeDone(messages, want) != messages)
  }

  lemma ConsCollects(p: Diag, m: Msg, rest: seq<Msg>, want: uint32, port: uint16, ips: seq<uint32>)
    requires !IsDone(m, want) && Collects(p, rest, want, port, ips + Own(m, want, port))
    ensures Collects(p, [m] + rest, want, port, ips)
  {
    hide Selected, BeforeDone, Own, IsDone;
    ConsSelects(m, rest, want, port);
    ConsSelects(m, BeforeDone(rest, want), want, port);
    Associates(ips, Own(m, want, port), Selected(rest, want, port));
    Associates(ips, Own(m, want, port), Selected(BeforeDone(rest, want), want, port));
    assert ([m] + BeforeDone(rest, want))[1..] == BeforeDone(rest, want) && ([m] + rest)[1..] == rest;
  }

  lemma Associates(a: seq<uint32>, b: seq<uint32>, c: seq<uint32>)
    ensures (a + b) + c == a + (b + c)
  {
  }

  lemma {:induction false} DiagsSelect(messages: seq<Msg>, clean: bool, want: uint32, port: uint16, ips: seq<uint32>)
    ensures Collects(TakeDiags(messages, clean, want, port, ips), messages, want, port, ips)
  {
    hide TakeDiag, Own, IsDone;
    if messages != [] {
      hide Collects;
      var m, rest := messages[0], messages[1..];
      assert messages == [m] + rest;
      StepSelects(m, want, port, ips);
      var p := TakeDiag(m, want, port, ips);
      if p.Finished? {
        DoneCollects(p, m, rest, want, port, ips);
      } else if p.Going? {
        DiagsSelect(rest, clean, want, port, p.ips);
        ConsCollects(TakeDiags(rest, clean, want, port, p.ips), m, rest, want, port, ips);
      } else {
        FailureCollects(p, messages, want, port, ips);
      }
    }
  }

  lemma DoneCollects(p: Diag, m: Msg, rest: seq<Msg>, want: uint32, port: uint16, ips: seq<uint32>)
    requires p == Finished(ips) && IsDone(m, want)
    ensures Collects(p, [m] + rest, want, port, ips)
  {
    assert ips + [] == ips;
  }

  lemma FailureCollects(p: Diag, messages: seq<Msg>, want: uint32, port: uint16, ips: seq<uint32>)
    requires p.Failed?
    ensures Collects(p, messages, want, port, ips)
  {
  }

  lemma {:induction false} SelectedAppends(a: seq<Msg>, b: seq<Msg>, want: uint32, port: uint16)
    ensures Selected(a + b, want, port) == Selected(a, want, port) + Selected(b, want, port)
  {
    if a == [] {
      assert a + b == b;
    } else {
      SelectedAppends(a[1..], b, want, port);
      assert (a + b)[1..] == a[1..] + b && (a + b)[0] == a[0];
    }
  }

  /** The first DONE of a concatenation is in the first part, if that has one. */
  lemma DoneIn(a: seq<Msg>, b: seq<Msg>, want: uint32)
    ensures BeforeDone(a, want) == a ==> BeforeDone(a + b, want) == a + BeforeDone(b, want)
    ensures BeforeDone(a, want) != a ==>
              BeforeDone(a + b, want) == BeforeDone(a, want) && BeforeDone(a + b, want) != a + b
  {
    if BeforeDone(a, want) == a {
      NoDoneIn(a, b, want);
    } else {
      SomeDoneIn(a, b, want);
    }
  }

  lemma {:induction false} NoDoneIn(a: seq<Msg>, b: seq<Msg>, want: uint32)
    requires BeforeDone(a, want) == a
    ensures BeforeDone(a + b, want) == a + BeforeDone(b, want)
  {
    if a == [] {
      assert a + b == b && [] + BeforeDone(b, want) == BeforeDone(b, want);
    } else {
      hide IsDone, BeforeDone, Selected, Own;
      var m, rest := a[0], a[1..];
      assert a == [m] + rest;
      ConsSelects(m, rest, want, 0);
      SameTail(m, BeforeDone(rest, want), rest);
      NoDoneIn(rest, b, want);
      ConsAssociates(m, rest, b);
      ConsSelects(m, rest + b, want, 0);
      ConsAssociates(m, rest, BeforeDone(b, want));
    }
  }

  lemma ConsAssociates(m: Msg, x: seq<Msg>, y: seq<Msg>)
    ensures ([m] + x) + y == [m] + (x + y)
  {
  }

  lemma SameTail(m: Msg, x: seq<Msg>, y: seq<Msg>)
    requires [m] + x == [m] + y
    ensures x == y
  {
    assert ([m] + x)[1..] == x && ([m] + y)[1..] == y;
  }

  lemma {:induction false} SomeDoneIn(a: seq<Msg>, b: seq<Msg>, want: uint32)
    requires BeforeDone(a, want) != a
    ensures BeforeDone(a + b, want) == BeforeDone(a, want) && |BeforeDone(a, want)| < |a|
  {
    if a != [] {
      hide IsDone, BeforeDone, Selected, Own;
      var m, rest := a[0], a[1..];
      assert a == [m] + rest;
      ConsSelects(m, rest, want, 0);
      ConsAssociates(m, rest, b);
      ConsSelects(m, rest + b, want, 0);
      if !IsDone(m, want) {
        SomeDoneIn(rest, b, want);
      }
    }
  }
}
