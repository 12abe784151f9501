/** Whole runs from one TUN to the other: where a write's datagram came from, which reads deliveries stem from, and when
    the server's loops end. */
module SessionEndToEnd {
  import opened Bytes
  import opened Codec
  import opened Aead
  import opened PacketCodec
  import opened PeerIndex
  import opened Addressing
  import opened Ipv4
  import opened ReplayWindow
  import opened Session
  import opened SessionInvariants
  import opened SessionSafety
  import opened SessionWelcome
  import opened SessionTraces

  // ---- What one step does to the datagram on its way ----

  /** The loop works on the datagram it received last. */
  predicate InFlight(u: UdpLoop)
  {
    u.Found? || u.Authenticated? || u.Handling? || u.Delivering?
  }

  ghost predicate SealedAs(s: State, source: nat, packet: seq<byte>)
  {
    source < |s.log| && Wire(s.log[source]) == packet
  }

  /** What the loop holds, against that datagram; DATA goes on only from the peer's own address, and not when empty. */
  ghost predicate Arriving(s: State, packet: seq<byte>, from: Address)
  {
    match s.udp
    case Found(_, p, f) => p == packet && f == from
    case Authenticated(_, _, f, source) => f == from && SealedAs(s, source, packet)
    case Handling(_, r, m, source) =>
      SealedAs(s, source, packet)
      && (m.header.kind == DATA ==> r < |s.peers| && s.peers[r].addr == from && m.payload != [])
    case Delivering(r, m, source) =>
      SealedAs(s, source, packet) && r < |s.peers| && s.peers[r].addr == from && m.payload != []
    case _ => true
  }

  ghost predicate Arrives(s: State, step: Step, t: State, packet: seq<byte>, from: Address)
  {
    if step.StepUdpReceive? then Arriving(t, step.packet, step.from)
    else
      && (InFlight(t.udp) ==> InFlight(s.udp) && !step.StepDeliver?)
      && (Arriving(s, packet, from) ==> Arriving(t, packet, from))
  }

  ghost predicate Writing(s: State, step: Step, t: State)
  {
    || t.writes == s.writes
    || (step.StepDeliver? && s.udp.Delivering?
        && t.writes == s.writes + [TunWrite(s.udp.peer, s.udp.message.header.sequence, s.udp.message.payload,
                                     s.udp.source)])
  }

  /** Addresses and greetings stay; a new peer has the address its ALOHA came from. */
  ghost predicate Greets(s: State, step: Step, t: State)
  {
    && |s.peers| <= |t.peers| <= |s.peers| + 1 && s.log <= t.log
    && (forall r :: 0 <= r < |s.peers| ==> t.peers[r].addr == s.peers[r].addr && t.peers[r].hello == s.peers[r].hello)
    && (|t.peers| > |s.peers| ==>
          && step.StepUdpReceive? && t.peers[|s.peers|].addr == step.from
          && SealedAs(t, t.peers[|s.peers|].hello, step.packet))
  }

  ghost predicate Comes(s: State, step: Step, t: State, packet: seq<byte>, from: Address)
  {
    Arrives(s, step, t, packet, from) && Writing(s, step, t) && Greets(s, step, t)
  }

  lemma AlohaWire(log: seq<Sealed>, packet: seq<byte>)
    ensures
      match DecodeAloha(log, packet)
      case Err(_) => true
      case Ok((m, random)) =>
        && |packet| >= PREFIX_LEN
        && var source := HandshakeSource(log, AlohaKey(random), ClientToServer, packet);
        && source.Some? && Wire(log[source.value]) == packet
  {
    if DecodeAloha(log, packet).Ok? {
      assert packet == packet[..PREFIX_LEN] + packet[PREFIX_LEN..];
    }
  }

  lemma ReceiveComes(s: State, p: seq<byte>, f: Address, packet: seq<byte>, from: Address)
    requires s.udp == Session.Reading
    ensures Comes(s, StepUdpReceive(p, f), UdpReceive(s, p, f), packet, from)
  {
    hide DecodeAloha, PeekHeader, Insert, HandshakeSource;
    AlohaWire(s.log, p);
  }

  lemma OpenComes(s: State, packet: seq<byte>, from: Address)
    requires CanOpen(s)
    ensures Comes(s, StepOpenFound, OpenFound(s), packet, from)
  {
    hide DecodePacket, PacketSource, PeekHeader;
    if s.peers[s.udp.peer].cipher.Some? {
      var key := s.peers[s.udp.peer].cipher.value;
      if DecodePacket(s.log, key, ClientToServer, s.udp.packet).Ok? {
        DecodedWasSealed(s.log, key, ClientToServer, s.udp.packet);
      }
    }
  }

  lemma HandshakeComes(s: State, step: Step, packet: seq<byte>, from: Address)
    requires Enabled(s, step) && OfHandshake(step)
    ensures Comes(s, step, Apply(s, step), packet, from)
  {
    hide Advance, Allocate, EncodeHandshake, FreshServerRandom;
  }

  lemma TunComes(s: State, step: Step, packet: seq<byte>, from: Address)
    requires Enabled(s, step) && OfTun(step)
    ensures Comes(s, step, Apply(s, step), packet, from)
  {
    hide EncodePacket, ExtractDst;
  }

  lemma OtherComes(s: State, step: Step, packet: seq<byte>, from: Address)
    requires Enabled(s, step) && !OfClient(step) && !OfHandshake(step) && !OfTun(step)
    requires !step.StepUdpReceive? && !step.StepOpenFound?
    ensures Comes(s, step, Apply(s, step), packet, from)
  {
    hide DecodeAloha, DecodePacket, Advance, EncodeHandshake, PeekHeader, Remove, Insert;
  }

  lemma LinkComes(s: State, step: Step, packet: seq<byte>, from: Address)
    requires Enabled(s, step) && OfClient(step)
    ensures Comes(s, step, Apply(s, step), packet, from)
  {
    hide DecodeWelcome, DecodePacket, Advance, EncodePacket;
  }

  lemma StepComes(s: State, step: Step, packet: seq<byte>, from: Address)
    requires Enabled(s, step)
    ensures Comes(s, step, Apply(s, step), packet, from)
  {
    hide Comes, UdpReceive, OpenFound, Apply, Enabled;
    if OfClient(step) {
      LinkComes(s, step, packet, from);
    } else if OfHandshake(step) {
      HandshakeComes(s, step, packet, from);
    } else if OfTun(step) {
      TunComes(s, step, packet, from);
    } else if step.StepUdpReceive? {
      ReceiveIs(s, step);
      ReceiveComes(s, step.packet, step.from, packet, from);
    } else if step.StepOpenFound? {
      OpenIs(s, step);
      OpenComes(s, packet, from);
    } else {
      OtherComes(s, step, packet, from);
    }
  }

  lemma ReceiveIs(s: State, step: Step)
    requires Enabled(s, step) && step.StepUdpReceive?
    ensures s.udp == Session.Reading && Apply(s, step) == UdpReceive(s, step.packet, step.from)
  {
    hide UdpReceive;
  }

  lemma OpenIs(s: State, step: Step)
    requires Enabled(s, step) && step.StepOpenFound?
    ensures CanOpen(s) && Apply(s, step) == OpenFound(s)
  {
    hide OpenFound;
  }

  // ---- Datagram to server TUN ----

  /** The last datagram the server received in a schedule. */
  function LastReceive(steps: seq<Step>): (j: Option<nat>)
    ensures j.Some? ==> j.value < |steps| && steps[j.value].StepUdpReceive?
    ensures j.Some? ==> forall m :: j.value < m < |steps| ==> !steps[m].StepUdpReceive?
  {
    if steps == [] then None
    else if steps[|steps| - 1].StepUdpReceive? then Some(|steps| - 1)
    else LastReceive(steps[..|steps| - 1])
  }

  lemma {:induction false} HeldArrived(network: Network, steps: seq<Step>, s: State)
    requires Execute(network, steps) == Some(s) && InFlight(s.udp)
    ensures LastReceive(steps).Some?
    ensures
      var j := LastReceive(steps).value;
      && Arriving(s, steps[j].packet, steps[j].from)
      && forall m :: j < m < |steps| ==> !steps[m].StepDeliver?
  {
    hide Apply, Enabled, Arriving, Writing, Greets;
    var prefix, step := steps[..|steps| - 1], steps[|steps| - 1];
    var before := Execute(network, prefix).value;
    if step.StepUdpReceive? {
      StepComes(before, step, step.packet, step.from);
    } else {
      StepComes(before, step, [], Address(0, 0));
      HeldArrived(network, prefix, before);
      var j := LastReceive(prefix).value;
      assert steps[j] == prefix[j];
      StepComes(before, step, steps[j].packet, steps[j].from);
      forall m | j < m < |steps| ensures !steps[m].StepDeliver? {
        assert m < |prefix| ==> steps[m] == prefix[m];
      }
    }
  }

  /** Step k of the schedule makes write i. */
  predicate WritesAt(network: Network, steps: seq<Step>, k: nat, i: nat)
  {
    k < |steps| && Execute(network, steps[..k]).Some? && |Execute(network, steps[..k]).value.writes| == i
  }

  lemma WritesEarlier(network: Network, steps: seq<Step>, n: nat, k: nat, i: nat)
    requires n <= |steps| && WritesAt(network, steps[..n], k, i)
    ensures WritesAt(network, steps, k, i) && steps[..n][..k] == steps[..k] && steps[..n][k] == steps[k]
  {
    assert steps[..n][..k] == steps[..k];
  }

  /** Every write to the server's TUN stems from the last datagram received before it. That datagram is, byte for byte,
      what the source record put on the wire, it came from the peer's own address, and it did not make another write. */
  lemma {:induction false} WriteWasReceived(network: Network, steps: seq<Step>, s: State, i: nat) returns (k: nat)
    requires Execute(network, steps) == Some(s) && i < |s.writes|
    ensures WritesAt(network, steps, k, i) && steps[k] == StepDeliver && LastReceive(steps[..k]).Some?
    ensures
      var j, w := LastReceive(steps[..k]).value, s.writes[i];
      && w.peer < |s.peers| && w.payload != [] && steps[j].from == s.peers[w.peer].addr
      && SealedAs(s, w.source, steps[j].packet)
      && forall m :: j < m < k ==> !steps[m].StepDeliver?
  {
    hide Apply, Enabled, Arrives;
    var n := |steps| - 1;
    var before := Execute(network, steps[..n]).value;
    StepComes(before, steps[n], [], Address(0, 0));
    if i < |before.writes| {
      k := WriteWasReceived(network, steps[..n], before, i);
      WritesEarlier(network, steps, n, k, i);
    } else {
      k := n;
      HeldArrived(network, steps[..n], before);
    }
  }

  /** A peer's address is, for ever, the one its client's ALOHA came from. */
  lemma {:induction false} AddressIsGreeting(network: Network, steps: seq<Step>, s: State, r: nat) returns (j: nat)
    requires Execute(network, steps) == Some(s) && r < |s.peers|
    ensures j < |steps| && steps[j].StepUdpReceive? && steps[j].from == s.peers[r].addr
    ensures SealedAs(s, s.peers[r].hello, steps[j].packet)
    ensures Execute(network, steps[..j]).Some? && |Execute(network, steps[..j]).value.peers| == r
  {
    hide Apply, Enabled, Arrives, Writing;
    var n := |steps| - 1;
    var before := Execute(network, steps[..n]).value;
    StepComes(before, steps[n], [], Address(0, 0));
    if r < |before.peers| {
      j := AddressIsGreeting(network, steps[..n], before, r);
      assert steps[..n][..j] == steps[..j];
    } else {
      j := n;
    }
  }

  // ---- TUN to TUN ----

  /** Whatever reaches a client's TUN was read from the server's TUN, whole, as an IPv4 packet for this client's
      address; different deliveries stem from different reads. */
  lemma ClientGetsWhatServerRead(network: Network, steps: seq<Step>, s: State, c: nat, i: nat, i': nat)
    returns (j: nat, j': nat)
    requires Reaches(network, steps, s) && HasLink(s, c)
    requires i < |LinkOf(s, c).delivered| && i' < |LinkOf(s, c).delivered|
    ensures j < |steps| && steps[j] == StepReadTun(LinkOf(s, c).delivered[i].payload)
    ensures j' < |steps| && steps[j'] == StepReadTun(LinkOf(s, c).delivered[i'].payload)
    ensures i != i' ==> j != j'
    ensures
      var packet := LinkOf(s, c).delivered[i].payload;
      && |packet| >= 20 && packet == Octets(HeaderOf(packet)) + packet[20..] && Whole(HeaderOf(packet), packet[20..])
      && HeaderOf(packet).destination == LinkOf(s, c).tunnelIP
  {
    hide Execute, InBounds, Octets, HeaderOf;
    ClientDeliversAtMostOnce(network, steps, s, c);
    var x, x' := LinkOf(s, c).delivered[i].source, LinkOf(s, c).delivered[i'].source;
    DataGoesToItsDestination(network, steps, s, x);
    var k := SealedWasRead(network, steps, s, x);
    j := LastRead(steps[..k]).value;
    if x == x' {
      j' := j;
    } else if x < x' {
      j, j' := ReadsInOrder(network, steps, s, x, x');
    } else {
      j', j := ReadsInOrder(network, steps, s, x', x);
    }
  }

  /** Whatever reaches the server's TUN was read from the TUN of the one client of that session, whole; different writes
      stem from different reads. */
  lemma ServerGetsWhatClientRead(network: Network, steps: seq<Step>, s: State, i: nat, i': nat)
    returns (c: nat, j: nat, c': nat, j': nat)
    requires Reaches(network, steps, s) && i < |s.writes| && i' < |s.writes|
    ensures SameSession(s, c, s.writes[i].peer) && SameSession(s, c', s.writes[i'].peer)
    ensures j < |steps| && steps[j] == StepDrawTun(c, s.writes[i].payload)
    ensures j' < |steps| && steps[j'] == StepDrawTun(c', s.writes[i'].payload)
    ensures i != i' ==> j != j'
  {
    hide Execute, InBounds;
    ServerDeliversAtMostOnce(network, steps, s);
    var x, x' := s.writes[i].source, s.writes[i'].source;
    c, c' := s.origins[x].owner.client, s.origins[x'].owner.client;
    var k := SentWasRead(network, steps, s, x, c);
    var k' := SentWasRead(network, steps, s, x', c');
    j, j' := LastDraw(steps[..k], c).value, LastDraw(steps[..k'], c').value;
    if c == c' {
      if x < x' {
        j, j' := DrawsInOrder(network, steps, s, x, x', c);
      } else if x' < x {
        j', j := DrawsInOrder(network, steps, s, x', x, c);
      }
    }
  }

  // ---- When the server's loops end ----

  /** An inner packet that ends tunToUdp: too short for a header, or version 4 with a header or length that does not
      fit. */
  predicate Broken(packet: seq<byte>)
  {
    |packet| < 20 || (HeaderOf(packet).version == 4 && !Whole(HeaderOf(packet), packet[20..]))
  }

  /** Besides a failing socket or TUN, udpToTun ends exactly when a keyed peer gets no address, because its id is past
      the network's last or it expired meanwhile; tunToUdp ends exactly on a broken inner packet. */
  lemma LoopsEndIff(network: Network, steps: seq<Step>, s: State, step: Step)
    requires Reaches(network, steps, s) && Enabled(s, step)
    ensures Apply(s, step).udp == UdpDown <==>
            || s.udp == UdpDown || step == StepUdpFail
            || (step == StepRoutePeer
                && (s.peers[s.udp.peer].id > Size(network) - 3 || !IsLive(s.index, Infos(s), s.udp.peer)))
    ensures Apply(s, step).tun == TunDown <==>
            || s.tun == TunDown || step == StepTunFail
            || (step.StepReadTun? && Broken(step.packet))
  {
    hide Reaches, ExtractDst, Whole, HeaderOf;
    if step == StepRoutePeer {
      RouteEndsIff(network, steps, s);
    } else if step.StepReadTun? {
      ReadEndsIff(s, step.packet);
    } else if step.StepSendWelcome? {
      WelcomeEncodes(s, step.ciphertext);
    } else if step.StepSendData? {
      DataEncodes(network, steps, s, step.ciphertext);
    } else if OfClient(step) {
      LinkSpares(s, step);
    } else {
      OtherSpares(s, step);
    }
  }

  lemma RouteEndsIff(network: Network, steps: seq<Step>, s: State)
    requires Reaches(network, steps, s) && CanRoute(s)
    ensures RoutePeer(s).tun == s.tun
    ensures RoutePeer(s).udp == UdpDown <==>
            s.peers[s.udp.peer].id > Size(network) - 3 || !IsLive(s.index, Infos(s), s.udp.peer)
  {
    hide Execute, InBounds, Inv, Allocate;
    RunKeeps(network, steps, s);
    NetworkOf(network, steps, s);
    IDIsPositive(s, s.udp.peer);
    AllocateStaysInside(s.network, s.peers[s.udp.peer].id);
    if Allocate(s.network, s.peers[s.udp.peer].id).Some? {
      TunnelIPNeverTaken(network, steps, s, Allocate(s.network, s.peers[s.udp.peer].id).value);
    }
  }

  lemma IDIsPositive(s: State, r: nat)
    requires Inv(s) && r < |s.peers|
    ensures s.peers[r].id == r + 1
  {
    hide IndexOk, DrawsOk, LogOk, ClientsOk, WritesOk, UdpOk, TunOk, PeersOk;
    PeerAt(s, r);
  }

  lemma {:induction false} NetworkOf(network: Network, steps: seq<Step>, s: State)
    requires Reaches(network, steps, s)
    ensures s.network == network && Normalized(s.network)
  {
    hide Enabled, Apply, InBounds;
    if steps != [] {
      var before := Execute(network, steps[..|steps| - 1]).value;
      BoundsShrink(before, steps[|steps| - 1]);
      NetworkOf(network, steps[..|steps| - 1], before);
      NetworkStays(before, steps[|steps| - 1]);
    }
  }

  lemma NetworkStays(s: State, step: Step)
    requires Enabled(s, step)
    ensures Apply(s, step).network == s.network
  {
    hide DecodeAloha, DecodePacket, DecodeWelcome, Advance, Allocate, EncodeHandshake, EncodePacket, ExtractDst,
         PeekHeader, Remove, Insert, Enabled;
  }

  lemma ReadEndsIff(s: State, packet: seq<byte>)
    requires CanReadTun(s, packet)
    ensures ReadTun(s, packet).udp == s.udp && (ReadTun(s, packet).tun == TunDown <==> Broken(packet))
  {
    hide Octets, HeaderOf, ExtractDst;
    EveryPacketHasHeader(packet);
    if |packet| >= 20 {
      DestinationIsRead(HeaderOf(packet), packet[20..]);
    }
  }

  lemma WelcomeEncodes(s: State, ciphertext: seq<byte>)
    requires CanSendWelcome(s, ciphertext)
    ensures SendWelcome(s, ciphertext).udp == Session.Reading && SendWelcome(s, ciphertext).tun == s.tun
  {
  }

  lemma DataEncodes(network: Network, steps: seq<Step>, s: State, ciphertext: seq<byte>)
    requires Reaches(network, steps, s) && CanSendData(s, ciphertext)
    ensures SendData(s, ciphertext).tun == TunReading && SendData(s, ciphertext).udp == s.udp
  {
    hide Execute, InBounds, EncodePacket;
    RoutableImpliesKeyed(network, steps, s);
  }

  lemma LinkSpares(s: State, step: Step)
    requires Enabled(s, step) && OfClient(step)
    ensures Apply(s, step).udp == s.udp && Apply(s, step).tun == s.tun
  {
    hide DecodeWelcome, DecodePacket, Advance, EncodePacket;
  }

  lemma OtherSpares(s: State, step: Step)
    requires Enabled(s, step) && !OfClient(step) && !step.StepRoutePeer? && !step.StepReadTun?
    requires !step.StepSendWelcome? && !step.StepSendData?
    ensures Apply(s, step).udp == UdpDown <==> s.udp == UdpDown || step == StepUdpFail
    ensures Apply(s, step).tun == TunDown <==> s.tun == TunDown || step == StepTunFail
  {
    hide DecodeAloha, DecodePacket, Advance, EncodeHandshake, PeekHeader, Remove, Insert;
  }
}
