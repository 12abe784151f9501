/** The kernel's side of the receive loops: replies as the kernel writes them (section 2.3.2 of RFC 3549 for the message
    and error headers), and what recvAcks and recvEstablishedTCPRemoteIP make of them. */
module NetlinkReplies {
  import opened Bytes
  import opened Digits
  import opened Netlink
  import opened NetlinkReceive

  type Addr16 = a: seq<byte> | |a| == 16 witness Zeros(16)

  // ---- Sockets ----

  /** One entry of a socket dump, an answer to the request with this sequence. IPv4 addresses are the first four of the
      sixteen bytes; what follows the addresses is of no interest here. */
  datatype Socket = Socket(
    sequence: uint32,
    family: byte,
    state: byte,
    timer: byte,
    retrans: byte,
    localPort: uint16,
    remotePort: uint16,
    local: Addr16,
    remote: Addr16,
    tail: seq<byte>)

  /** The reply: message type 20, ports in network byte order, the local address before the remote one. */
  function SocketReply(x: Socket): Msg
  {
    Msg(20, 2, x.sequence,
        [x.family, x.state, x.timer, x.retrans] + BigEndian(x.localPort, 2) + BigEndian(x.remotePort, 2)
        + x.local + x.remote + x.tail)
  }

  predicate Writable(x: Socket)
  {
    |x.tail| % 4 == 0 && HDRLEN + 40 + |x.tail| < TWO_32
  }

  function SocketReplies(xs: seq<Socket>): (ms: seq<Msg>)
    ensures |ms| == |xs| && forall i :: 0 <= i < |xs| ==> ms[i] == SocketReply(xs[i])
  {
    seq(|xs|, i requires 0 <= i < |xs| => SocketReply(xs[i]))
  }

  /** a.b.c.d as a number. */
  function Dotted(a: Addr16): uint32
  {
    var (w, x, y, z) := (a[0] as int, a[1] as int, a[2] as int, a[3] as int);
    0x100_0000 * w + 0x1_0000 * x + 256 * y + z
  }

  /** The other ends of the established (1) IPv4 (2) connections to this local port, in the order of the dump. */
  function OtherEnds(xs: seq<Socket>, want: uint32, port: uint16): seq<uint32>
  {
    if xs == [] then []
    else if xs[0].sequence == want && xs[0].family == 2 && xs[0].state == 1 && xs[0].localPort == port
    then [Dotted(xs[0].remote)] + OtherEnds(xs[1..], want, port)
    else OtherEnds(xs[1..], want, port)
  }

  lemma SocketFields(x: Socket)
    ensures
      var p := SocketReply(x).payload;
      && |p| == 40 + |x.tail| && p[0] == x.family && p[1] == x.state
      && ReadUint16(p[4..6]) == x.localPort && ReadUint32(p[24..28]) == Dotted(x.remote)
  {
    hide BigEndian, FromBigEndian;
    var p := SocketReply(x).payload;
    Widths();
    BigEndianReads(x.localPort, 2);
    assert p[4..6] == BigEndian(x.localPort, 2);
    FourOctets(x.remote[0], x.remote[1], x.remote[2], x.remote[3]);
    assert p[24..28] == [x.remote[0], x.remote[1], x.remote[2], x.remote[3]];
  }

  /** One reply contributes its remote address, or nothing. */
  lemma SocketTaken(x: Socket, want: uint32, port: uint16, ips: seq<uint32>)
    ensures TakeDiag(SocketReply(x), want, port, ips) == Going(ips + OtherEnds([x], want, port))
  {
    hide SocketReply;
    SocketFields(x);
    KindOf(x);
    assert [x][1..] == [] && OtherEnds([x][1..], want, port) == [];
    assert ips + [] == ips;
  }

  lemma KindOf(x: Socket)
    ensures SocketReply(x).kind == 20 && SocketReply(x).sequence == x.sequence
  {
  }

  lemma {:induction false} EndsAppend(a: seq<Socket>, b: seq<Socket>, want: uint32, port: uint16)
    ensures OtherEnds(a + b, want, port) == OtherEnds(a, want, port) + OtherEnds(b, want, port)
  {
    if a == [] {
      assert a + b == b;
    } else {
      EndsAppend(a[1..], b, want, port);
      assert (a + b)[1..] == a[1..] + b && (a + b)[0] == a[0];
    }
  }

  /** A list of replies, and then more messages. */
  lemma {:induction false} SocketsTaken(xs: seq<Socket>, after: seq<Msg>, want: uint32, port: uint16, ips: seq<uint32>)
    ensures TakeDiags(SocketReplies(xs) + after, true, want, port, ips)
            == TakeDiags(after, true, want, port, ips + OtherEnds(xs, want, port))
    decreases |xs|
  {
    hide TakeDiag, SocketReply, OtherEnds;
    var all := SocketReplies(xs) + after;
    if xs == [] {
      NoEnds(want, port);
      assert all == after && ips + [] == ips;
    } else {
      SocketTaken(xs[0], want, port, ips);
      assert all[0] == SocketReply(xs[0]) && all[1..] == SocketReplies(xs[1..]) + after;
      var one := OtherEnds([xs[0]], want, port);
      SocketsTaken(xs[1..], after, want, port, ips + one);
      assert xs == [xs[0]] + xs[1..];
      EndsAppend([xs[0]], xs[1..], want, port);
      assert (ips + one) + OtherEnds(xs[1..], want, port) == ips + (one + OtherEnds(xs[1..], want, port));
    }
  }

  lemma NoEnds(want: uint32, port: uint16)
    ensures OtherEnds([], want, port) == []
  {
  }

  function Flat(lists: seq<seq<Socket>>): seq<Socket>
  {
    if lists == [] then [] else lists[0] + Flat(lists[1..])
  }

  function DumpSource(early: seq<seq<Socket>>): seq<Received>
  {
    if early == [] then [] else [Datagram(Batch(SocketReplies(early[0])))] + DumpSource(early[1..])
  }

  predicate AllWritable(xs: seq<Socket>)
  {
    forall i :: 0 <= i < |xs| ==> Writable(xs[i])
  }

  lemma SocketSendable(x: Socket)
    requires Writable(x)
    ensures Sendable(SocketReply(x))
  {
  }

  lemma AllSendable(xs: seq<Socket>)
    requires AllWritable(xs)
    ensures forall i :: 0 <= i < |xs| ==> Sendable(SocketReplies(xs)[i])
  {
    hide SocketReply, Sendable;
    forall i | 0 <= i < |xs| ensures Sendable(SocketReplies(xs)[i]) {
      SocketSendable(xs[i]);
    }
  }

  lemma RepliesSplit(xs: seq<Socket>, after: seq<Msg>)
    requires AllWritable(xs) && forall i :: 0 <= i < |after| ==> Sendable(after[i])
    ensures Messages(Batch(SocketReplies(xs) + after)) == Split(SocketReplies(xs) + after, true)
  {
    hide Messages, Batch, SocketReplies, Sendable, AllWritable;
    AllSendable(xs);
    BatchSplits(SocketReplies(xs) + after);
  }

  /** A dump in any number of datagrams, ended by DONE (3) with anything after it: the call returns exactly the other
      ends of the established IPv4 connections to the port, in order. */
  lemma {:induction false} DumpIsRead(early: seq<seq<Socket>>, last: seq<Socket>, payload: seq<byte>, after: seq<Msg>,
                                      rest: seq<Received>, want: uint32, port: uint16, ips: seq<uint32>)
    requires forall i :: 0 <= i < |early| ==> AllWritable(early[i])
    requires AllWritable(last) && |payload| % 4 == 0 && HDRLEN + |payload| < TWO_32
    requires forall i :: 0 <= i < |after| ==> Sendable(after[i])
    ensures
      var d := Batch(SocketReplies(last) + ([Msg(3, 2, want, payload)] + after));
      DiagAll(DumpSource(early) + ([Datagram(d)] + rest), want, port, ips)
      == Finished(ips + OtherEnds(Flat(early) + last, want, port))
    decreases |early|
  {
    hide OtherEnds, Messages, Batch, SocketReplies, TakeDiags, AllWritable, DiagAll;
    var done := Msg(3, 2, want, payload);
    var d := Batch(SocketReplies(last) + ([done] + after));
    var end := [Datagram(d)] + rest;
    if early == [] {
      RepliesSplit(last, [done] + after);
      SocketsTaken(last, [done] + after, want, port, ips);
      DoneTaken(done, after, want, port, ips + OtherEnds(last, want, port));
      DiagFirst(d, rest, want, port, ips);
      assert DumpSource(early) + end == end && Flat(early) + last == last;
    } else {
      var now := ips + OtherEnds(early[0], want, port);
      EarlyTaken(early[0], want, port, ips);
      DumpIsRead(early[1..], last, payload, after, rest, want, port, now);
      DiagFirst(Batch(SocketReplies(early[0])), DumpSource(early[1..]) + end, want, port, ips);
      assert DumpSource(early) + end == [Datagram(Batch(SocketReplies(early[0])))] + (DumpSource(early[1..]) + end);
      EndsAppend(early[0], Flat(early[1..]) + last, want, port);
      assert Flat(early) + last == early[0] + (Flat(early[1..]) + last);
      AppendThrice(ips, OtherEnds(early[0], want, port), OtherEnds(Flat(early[1..]) + last, want, port));
    }
  }

  lemma AppendThrice(a: seq<uint32>, b: seq<uint32>, c: seq<uint32>)
    ensures (a + b) + c == a + (b + c)
  {
  }

  lemma DiagFirst(d: seq<byte>, rest: seq<Received>, want: uint32, port: uint16, ips: seq<uint32>)
    ensures
      var p := TakeDiags(Messages(d).messages, Messages(d).clean, want, port, ips);
      DiagAll([Datagram(d)] + rest, want, port, ips) == if p.Going? then DiagAll(rest, want, port, p.ips) else p
  {
    hide Messages, TakeDiags;
    assert ([Datagram(d)] + rest)[1..] == rest;
  }

  lemma EarlyTaken(xs: seq<Socket>, want: uint32, port: uint16, ips: seq<uint32>)
    requires AllWritable(xs)
    ensures
      var split := Messages(Batch(SocketReplies(xs)));
      TakeDiags(split.messages, split.clean, want, port, ips) == Going(ips + OtherEnds(xs, want, port))
  {
    hide OtherEnds, Messages, Batch, SocketReplies, TakeDiags, AllWritable, Sendable;
    RepliesSplit(xs, []);
    assert SocketReplies(xs) + [] == SocketReplies(xs);
    SocketsTaken(xs, [], want, port, ips);
    NothingTaken(want, port, ips + OtherEnds(xs, want, port));
  }

  /** A tail on which both receive loops give up: a header whose length is below 16, or leads past the datagram. */
  predicate Misfit(tail: seq<byte>)
  {
    |tail| >= 16 && (ReadNative32(tail[0..4]) < 16 || Align4(ReadNative32(tail[0..4])) > |tail|)
  }

  lemma MisfitSplits(tail: seq<byte>)
    requires Misfit(tail)
    ensures Messages(tail) == Split([], false)
  {
  }

  /** A message that does not fit fails the call, whatever was collected before. */
  lemma BrokenDumpFails(xs: seq<Socket>, tail: seq<byte>, rest: seq<Received>, want: uint32, port: uint16,
                        ips: seq<uint32>)
    requires AllWritable(xs) && Misfit(tail)
    ensures DiagAll([Datagram(Batch(SocketReplies(xs)) + tail)] + rest, want, port, ips) == Failed(InvalidReply)
  {
    hide OtherEnds, Messages, Batch, SocketReplies, Misfit, AllWritable, Sendable;
    var d := Batch(SocketReplies(xs)) + tail;
    AllSendable(xs);
    BatchThen(SocketReplies(xs), tail);
    MisfitSplits(tail);
    assert SocketReplies(xs) + [] == SocketReplies(xs);
    NeverFinishes(xs, want, port, ips);
    assert ([Datagram(d)] + rest)[0] == Datagram(d);
  }

  lemma {:induction false} NeverFinishes(xs: seq<Socket>, want: uint32, port: uint16, ips: seq<uint32>)
    ensures TakeDiags(SocketReplies(xs), false, want, port, ips) == Failed(InvalidReply)
    decreases |xs|
  {
    hide TakeDiag, SocketReply, OtherEnds;
    if xs != [] {
      SocketTaken(xs[0], want, port, ips);
      assert SocketReplies(xs)[1..] == SocketReplies(xs[1..]);
      NeverFinishes(xs[1..], want, port, ips + OtherEnds([xs[0]], want, port));
    }
  }

  lemma DoneTaken(done: Msg, after: seq<Msg>, want: uint32, port: uint16, ips: seq<uint32>)
    requires done.kind == 3 && done.sequence == want
    ensures TakeDiags([done] + after, true, want, port, ips) == Finished(ips)
  {
  }

  lemma NothingTaken(want: uint32, port: uint16, ips: seq<uint32>)
    ensures TakeDiags([], true, want, port, ips) == Going(ips)
  {
  }

  // ---- Acknowledgements ----

  type int32 = x: int | -0x8000_0000 <= x < 0x8000_0000

  /** The reply to the request with this sequence: 0, or minus an errno; the request's header follows. */
  datatype Ack = Ack(sequence: uint32, errno: int32, request: seq<byte>)

  /** Message type 2; the errno in two's complement, in the host's byte order. */
  function AckReply(a: Ack): Msg
  {
    Msg(2, 0, a.sequence, LittleEndian(if a.errno < 0 then a.errno + 0x1_0000_0000 else a.errno, 4) + a.request)
  }

  predicate AckWritable(a: Ack)
  {
    |a.request| % 4 == 0 && HDRLEN + 4 + |a.request| < TWO_32
  }

  function AckReplies(acks: seq<Ack>): (ms: seq<Msg>)
    ensures |ms| == |acks| && forall i :: 0 <= i < |acks| ==> ms[i] == AckReply(acks[i])
  {
    seq(|acks|, i requires 0 <= i < |acks| => AckReply(acks[i]))
  }

  lemma AckIsRead(a: Ack, wanted: set<uint32>, acked: set<uint32>)
    ensures
      TakeAck(AckReply(a), wanted, acked) ==
      if a.errno != 0 then Progress(acked, Some(Errno(a.errno)))
      else Progress(acked + ({a.sequence} * wanted), None)
  {
    hide LittleEndian, FromLittleEndian;
    var v := if a.errno < 0 then a.errno + 0x1_0000_0000 else a.errno;
    Widths();
    LittleEndianReads(v, 4);
    var m := AckReply(a);
    assert m.payload[0..4] == LittleEndian(v, 4);
    assert {a.sequence} * wanted == if a.sequence in wanted then {a.sequence} else {};
    assert acked + {} == acked;
  }

  predicate Successful(acks: seq<Ack>)
  {
    forall i :: 0 <= i < |acks| ==> acks[i].errno == 0
  }

  function Sequences(acks: seq<Ack>): set<uint32>
  {
    set a | a in acks :: a.sequence
  }

  /** The walk over replies, one reply at a time. */
  lemma AckFirst(acks: seq<Ack>, clean: bool, wanted: set<uint32>, acked: set<uint32>)
    requires acks != []
    ensures
      TakeAcks(AckReplies(acks), clean, wanted, acked) ==
      if acks[0].errno != 0 then Progress(acked, Some(Errno(acks[0].errno)))
      else TakeAcks(AckReplies(acks[1..]), clean, wanted, acked + ({acks[0].sequence} * wanted))
  {
    hide TakeAck, AckReply;
    AckIsRead(acks[0], wanted, acked);
    assert AckReplies(acks)[1..] == AckReplies(acks[1..]);
  }

  lemma NoAcks(clean: bool, wanted: set<uint32>, acked: set<uint32>)
    ensures TakeAcks(AckReplies([]), clean, wanted, acked) ==
            Progress(acked, if clean then None else Some(InvalidReply))
  {
  }

  /** Zeros all the way: everything wanted among them is acknowledged. */
  lemma {:induction false} AcksTaken(acks: seq<Ack>, wanted: set<uint32>, acked: set<uint32>)
    requires Successful(acks)
    ensures TakeAcks(AckReplies(acks), true, wanted, acked) == Progress(acked + Sequences(acks) * wanted, None)
    decreases |acks|
  {
    hide TakeAcks, AckReplies;
    if acks == [] {
      NoAcks(true, wanted, acked);
      assert acked + {} * wanted == acked && Sequences(acks) == {};
    } else {
      hide Sequences, Successful;
      var first, rest := acks[0], acks[1..];
      assert acks == [first] + rest;
      AckFirst(acks, true, wanted, acked);
      ConsSuccessful(first, rest);
      var now := acked + ({first.sequence} * wanted);
      AcksTaken(rest, wanted, now);
      assert now + Sequences(rest) * wanted == acked + Sequences(acks) * wanted;
    }
  }

  predicate Carries(acks: seq<Ack>, errno: int)
  {
    exists i :: 0 <= i < |acks| && acks[i].errno == errno
  }

  /** Otherwise the call fails with an errno that one of them carries. */
  lemma {:induction false} AcksFail(acks: seq<Ack>, wanted: set<uint32>, acked: set<uint32>)
    requires !Successful(acks)
    ensures
      var f := TakeAcks(AckReplies(acks), true, wanted, acked).failure;
      f.Some? && f.value.Errno? && f.value.errno != 0 && Carries(acks, f.value.errno)
    decreases |acks|
  {
    assert acks != [];
    hide TakeAcks, AckReplies, Successful, Carries;
    var first, rest := acks[0], acks[1..];
    assert acks == [first] + rest;
    AckFirst(acks, true, wanted, acked);
    ConsSuccessful(first, rest);
    if first.errno == 0 {
      var now := acked + ({first.sequence} * wanted);
      AcksFail(rest, wanted, now);
      CarriesCons(first, rest, TakeAcks(AckReplies(rest), true, wanted, now).failure.value.errno);
    } else {
      CarriesCons(first, rest, first.errno);
    }
  }

  lemma CarriesCons(first: Ack, rest: seq<Ack>, errno: int)
    ensures Carries([first] + rest, errno) <==> first.errno == errno || Carries(rest, errno)
  {
    var acks := [first] + rest;
    assert acks[0] == first && forall i :: 0 <= i < |rest| ==> rest[i] == acks[i + 1];
    if Carries(acks, errno) && first.errno != errno {
      var i :| 0 <= i < |acks| && acks[i].errno == errno;
      assert rest[i - 1] == acks[i];
    }
  }

  lemma ConsSuccessful(first: Ack, rest: seq<Ack>)
    ensures Successful([first] + rest) <==> first.errno == 0 && Successful(rest)
    ensures Sequences([first] + rest) == {first.sequence} + Sequences(rest)
  {
    var acks := [first] + rest;
    assert acks[0] == first && forall i :: 0 <= i < |rest| ==> rest[i] == acks[i + 1];
    forall a | a in acks ensures a == first || a in rest { }
  }

  function AckSource(lists: seq<seq<Ack>>): seq<Received>
  {
    if lists == [] then [] else [Datagram(Batch(AckReplies(lists[0])))] + AckSource(lists[1..])
  }

  /** Within the first n datagrams every request wanted is acknowledged, and nothing fails. */
  ghost predicate CompleteBy(lists: seq<seq<Ack>>, n: nat, wanted: set<uint32>, acked: set<uint32>)
  {
    n <= |lists|
    && (forall i :: 0 <= i < n ==> Successful(lists[i]))
    && forall q :: q in wanted && q !in acked ==> exists i :: 0 <= i < n && q in Sequences(lists[i])
  }

  lemma AcksSplit(acks: seq<Ack>)
    requires forall i :: 0 <= i < |acks| ==> AckWritable(acks[i])
    ensures Messages(Batch(AckReplies(acks))) == Split(AckReplies(acks), true)
  {
    hide Messages, Batch;
    forall i | 0 <= i < |acks| ensures Sendable(AckReplies(acks)[i]) {
      assert AckWritable(acks[i]);
    }
    BatchSplits(AckReplies(acks));
  }

  /** The call succeeds exactly when, up to some datagram, every wanted request has been acknowledged and no reply
      carried an errno; otherwise it reports an errno that a reply carried, or runs dry. */
  lemma {:induction false} RepliesDecide(lists: seq<seq<Ack>>, wanted: set<uint32>, acked: set<uint32>)
    requires forall i, j :: 0 <= i < |lists| && 0 <= j < |lists[i]| ==> AckWritable(lists[i][j])
    ensures AckAll(AckSource(lists), wanted, acked) == None <==> exists n :: CompleteBy(lists, n, wanted, acked)
    ensures
      var r := AckAll(AckSource(lists), wanted, acked);
      r.Some? ==>
        || r.value == Timeout
        || (r.value.Errno? && r.value.errno != 0
            && exists i :: 0 <= i < |lists| && Carries(lists[i], r.value.errno))
    decreases |lists|
  {
    hide TakeAcks, Messages, Batch, AckReplies, CompleteBy, Successful, Sequences, Carries;
    if wanted <= acked {
      CompleteNow(lists, wanted, acked);
    } else if lists == [] {
      NeverComplete(wanted, acked);
    } else {
      var first, rest := lists[0], lists[1..];
      AcksSplit(first);
      assert AckSource(lists)[1..] == AckSource(rest);
      CompleteLater(lists, wanted, acked);
      if Successful(first) {
        AcksTaken(first, wanted, acked);
        var now := acked + Sequences(first) * wanted;
        RepliesDecide(rest, wanted, now);
        var r := AckAll(AckSource(rest), wanted, now);
        if r.Some? && r.value.Errno? {
          var i :| 0 <= i < |rest| && Carries(rest[i], r.value.errno);
          assert lists[i + 1] == rest[i];
        }
      } else {
        AcksFail(first, wanted, acked);
      }
    }
  }

  /** A message that does not fit fails the call, even when everything wanted has just been acknowledged. */
  lemma BrokenAcksFail(acks: seq<Ack>, tail: seq<byte>, rest: seq<Received>, wanted: set<uint32>, acked: set<uint32>)
    requires (forall i :: 0 <= i < |acks| ==> AckWritable(acks[i])) && Successful(acks)
    requires Misfit(tail) && !(wanted <= acked)
    ensures AckAll([Datagram(Batch(AckReplies(acks)) + tail)] + rest, wanted, acked) == Some(InvalidReply)
  {
    hide Messages, Batch, AckReplies, Misfit;
    var d := Batch(AckReplies(acks)) + tail;
    forall i | 0 <= i < |acks| ensures Sendable(AckReplies(acks)[i]) {
      assert AckWritable(acks[i]);
    }
    BatchThen(AckReplies(acks), tail);
    MisfitSplits(tail);
    assert AckReplies(acks) + [] == AckReplies(acks);
    NeverClean(acks, wanted, acked);
    assert ([Datagram(d)] + rest)[0] == Datagram(d);
  }

  lemma {:induction false} NeverClean(acks: seq<Ack>, wanted: set<uint32>, acked: set<uint32>)
    requires Successful(acks)
    ensures TakeAcks(AckReplies(acks), false, wanted, acked).failure == Some(InvalidReply)
    decreases |acks|
  {
    hide TakeAcks, AckReplies;
    if acks == [] {
      NoAcks(false, wanted, acked);
    } else {
      AckFirst(acks, false, wanted, acked);
      assert forall i :: 0 <= i < |acks| - 1 ==> acks[1..][i] == acks[i + 1];
      NeverClean(acks[1..], wanted, acked + ({acks[0].sequence} * wanted));
    }
  }

  lemma CompleteNow(lists: seq<seq<Ack>>, wanted: set<uint32>, acked: set<uint32>)
    requires wanted <= acked
    ensures exists n :: CompleteBy(lists, n, wanted, acked)
  {
    assert CompleteBy(lists, 0, wanted, acked);
  }

  lemma NeverComplete(wanted: set<uint32>, acked: set<uint32>)
    requires !(wanted <= acked)
    ensures !exists n :: CompleteBy([], n, wanted, acked)
  {
  }

  lemma CompleteLater(lists: seq<seq<Ack>>, wanted: set<uint32>, acked: set<uint32>)
    requires lists != [] && !(wanted <= acked)
    ensures (exists n :: CompleteBy(lists, n, wanted, acked)) <==>
            Successful(lists[0])
            && exists n :: CompleteBy(lists[1..], n, wanted, acked + Sequences(lists[0]) * wanted)
  {
    hide Successful, Sequences;
    var rest, now := lists[1..], acked + Sequences(lists[0]) * wanted;
    if n: nat :| CompleteBy(lists, n, wanted, acked) {
      assert n > 0 by {
        var q :| q in wanted && q !in acked;
      }
      forall q | q in wanted && q !in now ensures exists i :: 0 <= i < n - 1 && q in Sequences(rest[i]) {
        var i :| 0 <= i < n && q in Sequences(lists[i]);
        assert rest[i - 1] == lists[i];
      }
      assert forall i :: 0 <= i < n - 1 ==> rest[i] == lists[i + 1];
      assert CompleteBy(rest, n - 1, wanted, now);
    }
    if n: nat :| Successful(lists[0]) && CompleteBy(rest, n, wanted, now) {
      forall i | 0 <= i < n + 1 ensures Successful(lists[i]) {
        assert i > 0 ==> lists[i] == rest[i - 1];
      }
      forall q | q in wanted && q !in acked ensures exists i :: 0 <= i < n + 1 && q in Sequences(lists[i]) {
        if q in Sequences(lists[0]) {
          assert 0 < n + 1;
        } else {
          assert q !in now;
          var i :| 0 <= i < n && q in Sequences(rest[i]);
          assert lists[i + 1] == rest[i];
        }
      }
      assert CompleteBy(lists, n + 1, wanted, acked);
    }
  }
}
