/** The step system is not safe by being stuck: handshakes complete and payloads arrive. */
module SessionProgress {
  import opened Bytes
  import opened Codec
  import opened Aead
  import opened PacketCodec
  import opened PeerIndex
  import opened Addressing
  import opened ReplayWindow
  import opened Session
  import opened SessionInvariants
  import opened SessionSteps

  lemma OneMore(network: Network, steps: seq<Step>, s: State, step: Step)
    requires Execute(network, steps) == Some(s) && Enabled(s, step)
    ensures Execute(network, steps + [step]) == Some(Apply(s, step))
  {
    hide Enabled, Apply;
    assert (steps + [step])[..|steps + [step]| - 1] == steps;
  }

  // ---- A packet just sealed opens ----

  lemma FindLast(log: seq<Sealed>, x: Sealed)
    ensures FindSeal(log + [x], x.key, x.nonce, x.aad, x.ciphertext) == Some(|log|)
  {
    var longer := log + [x];
    assert longer[|longer| - 1] == x && |longer| - 1 == |log|;
    assert Matches(x, x.key, x.nonce, x.aad, x.ciphertext);
  }

  lemma AlohaOpens(log: seq<Sealed>, random: Random, ciphertext: seq<byte>)
    requires |ciphertext| == TAG_LEN
    ensures
      var m := MessageOf(ALOHA, 0, 1, []);
      var e := EncodeAloha(AlohaKey(random), m, random, ciphertext);
      && e.Ok? && |Wire(e.value)| >= PREFIX_LEN
      && PeekHeader(Wire(e.value)) == Ok(Header(PROTOCOL_VERSION, ALOHA, 0, 0, 0, 1))
      && DecodeAloha(log + [e.value],
         Wire(e.value)) == Ok((m.(header := m.header.(version := PROTOCOL_VERSION)), random))
  {
    var m := MessageOf(ALOHA, 0, 1, []);
    var x := EncodeAloha(AlohaKey(random), m, random, ciphertext).value;
    HandshakeLayout(AlohaKey(random), ClientToServer, ALOHA, m, random, ciphertext);
    FindLast(log, x);
  }

  lemma WelcomeOpens(log: seq<Sealed>, id: uint64, ip: uint32, random: Random, serverRandom: Random,
                     ciphertext: seq<byte>)
    requires |ciphertext| == WELCOME_PAYLOAD_LEN + TAG_LEN && id != 0
    ensures
      var m := MessageOf(WELCOME, id, 1, WelcomePayload(ip, MTU));
      var e := EncodeWelcome(WelcomeKey(random, serverRandom), m, serverRandom, ciphertext);
      && e.Ok?
      && DecodeWelcome(log + [e.value], Wire(e.value),
         random) == Ok((m.(header := m.header.(version := PROTOCOL_VERSION)), serverRandom))
  {
    var m := MessageOf(WELCOME, id, 1, WelcomePayload(ip, MTU));
    var key := WelcomeKey(random, serverRandom);
    var x := EncodeWelcome(key, m, serverRandom, ciphertext).value;
    HandshakeLayout(key, ServerToClient, WELCOME, m, serverRandom, ciphertext);
    FindLast(log, x);
  }

  lemma PacketOpens(log: seq<Sealed>, key: Key, d: Direction, kind: byte, id: uint64, sequence: uint64,
                    payload: seq<byte>, ciphertext: seq<byte>)
    requires ValidType(kind) && |payload| <= MAX_PAYLOAD
    ensures
      var e := EncodePacket(key, d, MessageOf(kind, id, sequence, payload), ciphertext);
      var h := Header(PROTOCOL_VERSION, kind, 0, 0, id, sequence);
      && e.Ok? && PeekHeader(Wire(e.value)) == Ok(h) && |Wire(e.value)| >= HEADER_LEN
      && DecodePacket(log + [e.value], key, d, Wire(e.value)) == Ok(Message(h, payload))
      && PacketSource(log + [e.value], key, d, Wire(e.value)) == Some(|log|)
  {
    PacketLayout(key, d, kind, id, sequence, payload, ciphertext);
    var h := Header(PROTOCOL_VERSION, kind, 0, 0, id, sequence);
    var x := Sealed(key, Nonce(d, sequence), HeaderBytes(h), payload, ciphertext);
    FindLast(log, x);
    PeekReads(h, ciphertext);
    assert Wire(x)[..HEADER_LEN] == HeaderBytes(h) && Wire(x)[HEADER_LEN..] == ciphertext;
    DecodeInvertsEncode(MessageOf(kind, id, sequence, payload));
  }

  // ---- The handshake ----

  /** A random no client has drawn is not registered. */
  lemma FreshIsUnregistered(s: State, random: Random)
    requires PeersOk(s) && IndexOk(s) && FreshClientRandom(s, random)
    ensures random !in s.index.byClientRandom
  {
    if random in s.index.byClientRandom {
      PeerAt(s, s.index.byClientRandom[random]);
    }
  }

  /** The server's part after a fresh ALOHA: the peer gets its cipher and address. */
  function NewPeer(s: State, from: Address, random: Random, serverRandom: Random, ip: uint32): Peer
  {
    Peer(s.index.nextID, from, random, V4(ip), Some(PeerKey(s.index.nextID, random, serverRandom)), 0,
         Advance(EMPTY_WINDOW, 1).0, s.clock, Some(serverRandom), {1}, |s.log|)
  }

  /** A new client's ALOHA, and the server's steps up to the address. */
  lemma ServerAnswers(network: Network, steps: seq<Step>, s: State, random: Random, serverRandom: Random,
                      from: Address, tag: seq<byte>, ip: uint32)
    returns (longer: seq<Step>, t: State)
    requires Execute(network, steps) == Some(s) && Inv(s)
    requires s.udp == Reading && CanHello(s, random, tag) && FreshServerRandom(s, serverRandom)
    requires Allocate(s.network, s.index.nextID) == Some(ip) && |s.peers| + 2 < TWO_64
    ensures steps <= longer && Execute(network, longer) == Some(t)
    ensures t.peers == s.peers + [NewPeer(s, from, random, serverRandom, ip)]
    ensures t.clients == s.clients + [Client(random, AwaitingWelcome)]
    ensures t.udp == Routable(|s.peers|, random, serverRandom, ip)
    ensures t.tun == s.tun && t.network == s.network && t.clock == s.clock
    ensures t.index == Insert(s.index, |s.peers|, random).(byTunnelIP := s.index.byTunnelIP[V4(ip) := |s.peers|])
  {
    hide PeersOk, DrawsOk, LogOk, ClientsOk, WritesOk, UdpOk, TunOk, Agrees, DecodeAloha, EncodeHandshake,
         PeekHeader, Refines,
         HandshakeSource, Execute;
    var r := |s.peers|;
    AlohaOpens(s.log, random, tag);
    FreshIsUnregistered(s, random);
    FirstAccepted();
    AddressIsFree(s, ip);
    var sealed := EncodeAloha(AlohaKey(random), MessageOf(ALOHA, 0, 1, []), random, tag).value;
    AlohaSource(s.log, sealed, random, tag);

    var s1 := Hello(s, random, tag);
    OneMore(network, steps, s, StepHello(random, tag));
    var steps1 := steps + [StepHello(random, tag)];

    var s2 := UdpReceive(s1, Wire(sealed), from);
    OneMore(network, steps1, s1, StepUdpReceive(Wire(sealed), from));
    var steps2 := steps1 + [StepUdpReceive(Wire(sealed), from)];
    assert s2.peers == s.peers
      + [Peer(s.index.nextID, from, random, Unset, None, 0, EMPTY_WINDOW, s.clock, None, {}, |s.log|)];

    var s3 := AcceptHello(s2);
    OneMore(network, steps2, s2, StepAcceptHello);
    var steps3 := steps2 + [StepAcceptHello];
    assert Advance(EMPTY_WINDOW, 1).1 == Accepted && {} + {1} == {1 as uint64};

    var s4 := SetCipher(s3, serverRandom);
    OneMore(network, steps3, s3, StepSetCipher(serverRandom));
    var steps4 := steps3 + [StepSetCipher(serverRandom)];

    t := RoutePeer(s4);
    OneMore(network, steps4, s4, StepRoutePeer);
    longer := steps4 + [StepRoutePeer];
    assert t.peers == s.peers + [NewPeer(s, from, random, serverRandom, ip)];
  }

  lemma AlohaSource(log: seq<Sealed>, x: Sealed, random: Random, tag: seq<byte>)
    requires |tag| == TAG_LEN && EncodeAloha(AlohaKey(random), MessageOf(ALOHA, 0, 1, []), random, tag) == Ok(x)
    ensures |Wire(x)| >= PREFIX_LEN
            && HandshakeSource(log + [x], AlohaKey(random), ClientToServer, Wire(x)) == Some(|log|)
  {
    HandshakeLayout(AlohaKey(random), ClientToServer, ALOHA, MessageOf(ALOHA, 0, 1, []), random, tag);
    FindLast(log, x);
  }

  lemma AddressIsFree(s: State, ip: uint32)
    requires PeersOk(s) && IndexOk(s) && Allocate(s.network, s.index.nextID) == Some(ip)
    ensures V4(ip) !in s.index.byTunnelIP
    ensures forall id :: id in s.index.byID ==> s.index.byID[id] < |s.peers|
  {
    if V4(ip) in s.index.byTunnelIP {
      PeerAt(s, s.index.byTunnelIP[V4(ip)]);
      AllocateIsBijective(s.network, ip);
    }
    forall id | id in s.index.byID ensures s.index.byID[id] < |s.peers| {
      LiveByID(s, id);
    }
  }

  /** From every reachable state in which the server's loop is reading and an address is left, a new client
      can complete its handshake; it then holds the next peer id, its allocated address and the MTU. */
  lemma HandshakeCompletes(network: Network, steps: seq<Step>, s: State, random: Random, serverRandom: Random,
                           from: Address, tag: seq<byte>, ciphertext: seq<byte>)
    returns (longer: seq<Step>, t: State)
    requires Execute(network, steps) == Some(s) && Inv(s)
    requires s.udp == Reading && CanHello(s, random, tag) && FreshServerRandom(s, serverRandom)
    requires Allocate(s.network, s.index.nextID).Some? && |s.peers| + 2 < TWO_64
    requires |ciphertext| == WELCOME_PAYLOAD_LEN + TAG_LEN
    ensures steps <= longer && Execute(network, longer) == Some(t) && t.udp == Reading
    ensures HasLink(t, |s.clients|) && SameSession(t, |s.clients|, |s.peers|)
    ensures LinkOf(t, |s.clients|).peerID == s.index.nextID && LinkOf(t, |s.clients|).mtu == 1436
    ensures Some(LinkOf(t, |s.clients|).tunnelIP) == Allocate(s.network, s.index.nextID)
  {
    hide PeersOk, DrawsOk, LogOk, ClientsOk, WritesOk, UdpOk, TunOk, Agrees, EncodeHandshake, DecodeWelcome, Refines,
         Execute, Allocate, Advance, SameSession, Inv, IndexOk;
    var ip := Allocate(s.network, s.index.nextID).value;
    InvIndex(s);
    NextIDIsPositive(s);
    var steps5, s5 := ServerAnswers(network, steps, s, random, serverRandom, from, tag, ip);
    longer, t := WelcomeFinishes(network, steps5, s5, |s.clients|, random, serverRandom, ip, ciphertext);
  }

  /** The WELCOME of a routable peer whose counter is 0, and its client's reading of it. */
  lemma WelcomeFinishes(network: Network, steps: seq<Step>, s: State, c: nat, random: Random, serverRandom: Random,
                        ip: uint32, ciphertext: seq<byte>)
    returns (longer: seq<Step>, t: State)
    requires Execute(network, steps) == Some(s) && s.udp.Routable? && s.udp.peer < |s.peers|
    requires s.udp == Routable(s.udp.peer, random, serverRandom, ip) && s.peers[s.udp.peer].sends == 0
    requires s.peers[s.udp.peer].id == s.udp.peer + 1 && s.peers[s.udp.peer].clientRandom == random
    requires s.peers[s.udp.peer].serverRandom == Some(serverRandom) && s.peers[s.udp.peer].tunnelIP == V4(ip)
    requires s.peers[s.udp.peer].cipher == Some(PeerKey(s.peers[s.udp.peer].id, random, serverRandom))
    requires c < |s.clients| && s.clients[c] == Client(random, AwaitingWelcome)
    requires |ciphertext| == WELCOME_PAYLOAD_LEN + TAG_LEN
    ensures steps <= longer && Execute(network, longer) == Some(t) && t.udp == Reading
    ensures HasLink(t, c) && SameSession(t, c, s.udp.peer)
    ensures LinkOf(t, c).peerID == s.peers[s.udp.peer].id && LinkOf(t, c).tunnelIP == ip && LinkOf(t, c).mtu == 1436
  {
    hide EncodeHandshake, DecodeWelcome, Execute, Advance;
    var r := s.udp.peer;
    var id := s.peers[r].id;
    var s6 := DrawWelcome(s);
    OneMore(network, steps, s, StepDrawWelcome);
    var steps6 := steps + [StepDrawWelcome];
    assert s6.udp == WelcomeDrawn(r, random, serverRandom, ip, 1);

    WelcomeOpens(s6.log, id, ip, random, serverRandom, ciphertext);
    var m := MessageOf(WELCOME, id, 1, WelcomePayload(ip, MTU));
    var sealed := EncodeWelcome(WelcomeKey(random, serverRandom), m, serverRandom, ciphertext).value;
    var s7 := SendWelcome(s6, ciphertext);
    OneMore(network, steps6, s6, StepSendWelcome(ciphertext));
    var steps7 := steps6 + [StepSendWelcome(ciphertext)];
    assert s7.log == s6.log + [sealed];

    WelcomePayloadReads(ip, MTU);
    t := FinishHandshake(s7, c, Wire(sealed));
    OneMore(network, steps7, s7, StepFinishHandshake(c, Wire(sealed)));
    longer := steps7 + [StepFinishHandshake(c, Wire(sealed))];
  }

  lemma NextIDIsPositive(s: State)
    requires IndexOk(s)
    ensures s.index.nextID != 0 && s.index.nextID == |s.peers| + 1
  {
  }

  /** The trap behind "WELCOME always has sequence 1": the peer is routable before its WELCOME is numbered, so one
      inner packet for it at that moment takes number 1 and the client turns the WELCOME down. */
  lemma DataCanOvertakeWelcome(network: Network, steps: seq<Step>, s: State, random: Random, serverRandom: Random,
                               from: Address, tag: seq<byte>, packet: seq<byte>, ciphertext: seq<byte>)
    returns (longer: seq<Step>, t: State)
    requires Execute(network, steps) == Some(s) && Inv(s)
    requires s.udp == Reading && s.tun == TunReading && CanHello(s, random, tag) && FreshServerRandom(s, serverRandom)
    requires Allocate(s.network, s.index.nextID).Some? && |s.peers| + 2 < TWO_64
    requires 0 < |packet| <= MAX_PAYLOAD && ExtractDst(packet) == Dst(Allocate(s.network, s.index.nextID).value)
    ensures steps <= longer && Execute(network, longer) == Some(t)
    ensures t.udp.WelcomeDrawn? && t.udp.sequence == 2 && t.tun.TunDrawn? && t.tun.sequence == 1
  {
    hide PeersOk, DrawsOk, LogOk, ClientsOk, WritesOk, UdpOk, TunOk, Agrees, Refines, Execute, Allocate, Advance,
         ExtractDst;
    var ip := Allocate(s.network, s.index.nextID).value;
    var steps5, s5 := ServerAnswers(network, steps, s, random, serverRandom, from, tag, ip);

    var s6 := ReadTun(s5, packet);
    OneMore(network, steps5, s5, StepReadTun(packet));
    var steps6 := steps5 + [StepReadTun(packet)];

    var s7 := DrawData(s6);
    OneMore(network, steps6, s6, StepDrawData);
    var steps7 := steps6 + [StepDrawData];

    t := DrawWelcome(s7);
    OneMore(network, steps7, s7, StepDrawWelcome);
    longer := steps7 + [StepDrawWelcome];
  }

  /** A client finishes its handshake exactly on a WELCOME that opens and carries sequence 1. */
  lemma WelcomeNeedsSequenceOne(s: State, c: nat, packet: seq<byte>)
    requires Inv(s) && CanFinishHandshake(s, c)
    ensures HasLink(FinishHandshake(s, c, packet), c) <==>
            DecodeWelcome(s.log, packet, s.clients[c].random).Ok?
            && DecodeWelcome(s.log, packet, s.clients[c].random).value.0.header.sequence == 1
  {
    hide DecodeWelcome, IndexOk, WritesOk, UdpOk, TunOk;
    if DecodeWelcome(s.log, packet, s.clients[c].random).Ok? {
      WelcomeIsGenuine(s, c, packet);
      var m := DecodeWelcome(s.log, packet, s.clients[c].random).value.0;
      WelcomePayloadReads(s.peers[m.header.peerID - 1].tunnelIP.addr, MTU);
    }
  }

  // ---- Data ----

  /** From every reachable state, an inner packet of a client whose peer is live and at the sender's address
      reaches the server's TUN unchanged. */
  lemma DataArrives(network: Network, steps: seq<Step>, s: State, c: nat, payload: seq<byte>, ciphertext: seq<byte>)
    returns (longer: seq<Step>, t: State)
    requires Execute(network, steps) == Some(s) && Inv(s) && InBounds(s)
    requires s.udp == Reading && CanDrawTun(s, c, payload) && Tagged(payload, ciphertext)
    requires LinkOf(s, c).sends + 1 < TWO_64 && LinkOf(s, c).peerID in s.index.byID
    ensures steps <= longer && Execute(network, longer) == Some(t)
    ensures
      var link := LinkOf(s, c);
      var r := link.peerID - 1;
      && t.writes == s.writes + [TunWrite(r, link.sends + 1, payload, |s.log|)]
      && t.udp == Touching(r) && t.index == s.index && t.clock == s.clock
      && |t.peers| == |s.peers| && r < |t.peers| && t.peers[r].id == s.peers[r].id
         && t.peers[r].lastSeen == s.peers[r].lastSeen
  {
    hide PeersOk, IndexOk, DrawsOk, LogOk, ClientsOk, WritesOk, UdpOk, TunOk, Refines, Execute, Advance,
         EncodePacket, DecodePacket, PeekHeader, PacketSource, Inv, HeaderBytes;
    var link := LinkOf(s, c);
    var r := link.peerID - 1;
    LinkFacts(s, c);
    NewNumberAccepted(s, c);
    PacketOpens(s.log, link.key, ClientToServer, DATA, link.peerID, link.sends + 1, payload, ciphertext);
    var steps2, s2, buf := ClientSends(network, steps, s, c, payload, ciphertext);

    var m := Message(Header(PROTOCOL_VERSION, DATA, 0, 0, link.peerID, link.sends + 1), payload);
    longer, t := ServerDelivers(network, steps2, s2, r, link.key, m, buf, |s.log|);
  }

  /** The server's steps on a DATA packet that opens under a live peer's key and whose number the window accepts. */
  lemma ServerDelivers(network: Network, steps: seq<Step>, s: State, r: nat, key: Key, m: Message, buf: seq<byte>,
                       source: nat) returns (longer: seq<Step>, t: State)
    requires Execute(network, steps) == Some(s) && s.udp == Reading && r < |s.peers|
    requires forall id :: id in s.index.byID ==> s.index.byID[id] < |s.peers|
    requires m.header.peerID in s.index.byID && s.index.byID[m.header.peerID] == r && s.peers[r].cipher == Some(key)
    requires |buf| >= HEADER_LEN && PeekHeader(buf) == Ok(m.header) && m.header.kind == DATA && m.payload != []
    requires DecodePacket(s.log, key, ClientToServer, buf) == Ok(m)
    requires PacketSource(s.log, key, ClientToServer, buf) == Some(source)
    requires Advance(s.peers[r].window, m.header.sequence).1 == Accepted
    ensures steps <= longer && Execute(network, longer) == Some(t)
    ensures t.writes == s.writes + [TunWrite(r, m.header.sequence, m.payload, source)]
    ensures t.udp == Touching(r) && t.index == s.index && t.clock == s.clock
    ensures |t.peers| == |s.peers| && t.peers[r].id == s.peers[r].id && t.peers[r].lastSeen == s.peers[r].lastSeen
  {
    hide Execute, Advance;
    var steps4, s4 := ServerOpens(network, steps, s, r, key, m, buf, s.peers[r].addr, source);
    var p := Accepting(s.peers[r], m.header.sequence).0;

    var s5 := LookupAgain(s4);
    OneMore(network, steps4, s4, StepLookupAgain);
    var steps5 := steps4 + [StepLookupAgain];
    assert s5 == s.(udp := Handling(r, r, m, source));

    var s6 := AcceptMessage(s5);
    OneMore(network, steps5, s5, StepAcceptMessage);
    var steps6 := steps5 + [StepAcceptMessage];
    assert s6 == WithPeer(s, r, p).(udp := Delivering(r, m, source));

    t := Deliver(s6);
    OneMore(network, steps6, s6, StepDeliver);
    longer := steps6 + [StepDeliver];
  }

  /** The lookup by id and the opening under the peer's key, wherever the packet comes from. */
  lemma ServerOpens(network: Network, steps: seq<Step>, s: State, r: nat, key: Key, m: Message, buf: seq<byte>,
                    from: Address, source: nat) returns (longer: seq<Step>, t: State)
    requires Execute(network, steps) == Some(s) && s.udp == Reading && r < |s.peers|
    requires m.header.peerID in s.index.byID && s.index.byID[m.header.peerID] == r && s.peers[r].cipher == Some(key)
    requires |buf| >= HEADER_LEN && PeekHeader(buf) == Ok(m.header)
    requires m.header.kind == DATA || m.header.kind == KEEPALIVE
    requires DecodePacket(s.log, key, ClientToServer, buf) == Ok(m)
    requires PacketSource(s.log, key, ClientToServer, buf) == Some(source)
    ensures steps <= longer && Execute(network, longer) == Some(t)
    ensures t == s.(udp := Authenticated(r, m, from, source))
  {
    hide Execute, DecodePacket, PeekHeader, PacketSource;
    var s3 := UdpReceive(s, buf, from);
    OneMore(network, steps, s, StepUdpReceive(buf, from));
    var steps3 := steps + [StepUdpReceive(buf, from)];
    assert s3.udp == Found(r, buf, from);

    t := OpenFound(s3);
    OneMore(network, steps3, s3, StepOpenFound);
    longer := steps3 + [StepOpenFound];
  }

  /** DrawTun and SendTun, with nothing in between. */
  lemma ClientSends(network: Network, steps: seq<Step>, s: State, c: nat, payload: seq<byte>, ciphertext: seq<byte>)
    returns (longer: seq<Step>, t: State, buf: seq<byte>)
    requires Execute(network, steps) == Some(s) && CanDrawTun(s, c, payload) && Tagged(payload, ciphertext)
    ensures steps <= longer && Execute(network, longer) == Some(t)
    ensures t.peers == s.peers && t.index == s.index && t.udp == s.udp && t.writes == s.writes && t.clock == s.clock
    ensures HasLink(t, c) && LinkOf(t, c) == LinkOf(s, c).(sends := LinkOf(s, c).sends + 1)
    ensures
      var m := MessageOf(DATA, LinkOf(s, c).peerID, Counter(LinkOf(s, c).sends + 1), payload);
      var e := EncodePacket(LinkOf(s, c).key, ClientToServer, m, ciphertext);
      e.Ok? && t.log == s.log + [e.value] && buf == Wire(e.value)
  {
    hide Execute, EncodePacket;
    var link := LinkOf(s, c);
    var sequence := Counter(link.sends + 1);
    PacketLayout(link.key, ClientToServer, DATA, link.peerID, sequence, payload, ciphertext);
    var sealed := EncodePacket(link.key, ClientToServer, MessageOf(DATA, link.peerID, sequence, payload),
      ciphertext).value;
    buf := Wire(sealed);
    var s1 := DrawTun(s, c, payload);
    OneMore(network, steps, s, StepDrawTun(c, payload));
    t := SendTun(s1, c, ciphertext);
    var steps1 := steps + [StepDrawTun(c, payload)];
    OneMore(network, steps1, s1, StepSendTun(c, ciphertext));
    longer := steps1 + [StepSendTun(c, ciphertext)];
  }

  lemma LinkFacts(s: State, c: nat)
    requires Inv(s) && HasLink(s, c) && LinkOf(s, c).peerID in s.index.byID
    ensures SameSession(s, c, LinkOf(s, c).peerID - 1) && s.index.byID[LinkOf(s, c).peerID] == LinkOf(s, c).peerID - 1
    ensures forall id :: id in s.index.byID ==> s.index.byID[id] < |s.peers|
  {
    hide IndexOk, DrawsOk, LogOk, WritesOk, UdpOk, TunOk, PeersOk;
    LinkAt(s, c);
    LiveByID(s, LinkOf(s, c).peerID);
    forall id | id in s.index.byID ensures s.index.byID[id] < |s.peers| {
      LiveByID(s, id);
    }
  }

  /** The server's window has never seen the number a client draws next, nor anything above it. */
  lemma NewNumberAccepted(s: State, c: nat)
    requires Inv(s) && HasLink(s, c) && LinkOf(s, c).peerID >= 1 && SameSession(s, c, LinkOf(s, c).peerID - 1)
    requires LinkOf(s, c).sends + 1 < TWO_64
    ensures Advance(s.peers[LinkOf(s, c).peerID - 1].window, LinkOf(s, c).sends + 1).1 == Accepted
  {
    hide IndexOk, DrawsOk, LogOk, WritesOk, UdpOk, TunOk, PeersOk;
    var r, next := LinkOf(s, c).peerID - 1, LinkOf(s, c).sends + 1;
    PeerAt(s, r);
    OneClientPerRandom(s, c, s.origins[s.peers[r].hello].owner.client);
    AdvanceRefines(s.peers[r].window, s.peers[r].accepted, next);
  }

  // ---- Beyond the bound ----

  /** Sealed with this key as the client's number-th draw. */
  predicate SealedAs(x: Sealed, key: Key, number: nat)
  {
    x.key == key && x.nonce == Nonce(ClientToServer, Counter(number))
  }

  /** From position `from` on, the log holds one Seal call for each draw, `first` and following. */
  ghost predicate SealedInTurn(log: seq<Sealed>, from: nat, key: Key, first: nat)
  {
    forall i :: from <= i < |log| ==> SealedAs(log[i], key, first + (i - from))
  }

  /** n rounds of a client's tunToUdp, one after the other. */
  lemma {:induction false} ManySends(network: Network, steps: seq<Step>, s: State, c: nat, payload: seq<byte>,
                                     ciphertext: seq<byte>, n: nat) returns (longer: seq<Step>, t: State)
    requires Execute(network, steps) == Some(s) && CanDrawTun(s, c, payload) && Tagged(payload, ciphertext)
    ensures steps <= longer && Execute(network, longer) == Some(t)
    ensures CanDrawTun(t, c, payload) && LinkOf(t, c) == LinkOf(s, c).(sends := LinkOf(s, c).sends + n)
    ensures s.log <= t.log && |t.log| == |s.log| + n
    ensures SealedInTurn(t.log, |s.log|, LinkOf(s, c).key, LinkOf(s, c).sends + 1)
  {
    hide Execute, EncodePacket, Nonce, Counter, HeaderBytes;
    if n == 0 {
      longer, t := steps, s;
    } else {
      var most, r := ManySends(network, steps, s, c, payload, ciphertext, n - 1);
      var link := LinkOf(r, c);
      var buf;
      longer, t, buf := ClientSends(network, most, r, c, payload, ciphertext);
      PacketLayout(link.key, ClientToServer, DATA, link.peerID, Counter(link.sends + 1), payload, ciphertext);
      assert SealedAs(t.log[|r.log|], link.key, link.sends + 1);
    }
  }

  /** The bound of NoncesNeverRepeat is needed: from any state with an established client there is a run that seals
      twice under one key and nonce. Along it, two of the client's Seal calls collide exactly when a multiple of 2^64
      lies between them. */
  lemma NoncesRepeatBeyondBound(network: Network, steps: seq<Step>, s: State, c: nat, payload: seq<byte>,
                                ciphertext: seq<byte>) returns (longer: seq<Step>, t: State)
    requires Execute(network, steps) == Some(s) && CanDrawTun(s, c, payload) && Tagged(payload, ciphertext)
    ensures steps <= longer && Execute(network, longer) == Some(t) && !NonceUnique(t.log)
    ensures forall i, j :: |s.log| <= i < j < |t.log| ==>
              (t.log[i].key == t.log[j].key && t.log[i].nonce == t.log[j].nonce <==> (j - i) % TWO_64 == 0)
  {
    hide Execute;
    hide Nonce, Counter;
    longer, t := ManySends(network, steps, s, c, payload, ciphertext, TWO_64 + 1);
    var from, first := |s.log|, LinkOf(s, c).sends + 1;
    forall i, j | from <= i < j < |t.log|
      ensures t.log[i].key == t.log[j].key && t.log[i].nonce == t.log[j].nonce <==> (j - i) % TWO_64 == 0
    {
      var m, n := first + (i - from), first + (j - from);
      assert SealedAs(t.log[i], LinkOf(s, c).key, m) && SealedAs(t.log[j], LinkOf(s, c).key, n);
      NonceInjective(ClientToServer, Counter(m), ClientToServer, Counter(n));
      CounterRepeats(n, m);
    }
    assert (from + TWO_64 - from) % TWO_64 == 0;
    assert t.log[from].nonce == t.log[from + TWO_64].nonce;
  }

  lemma CounterRepeats(m: nat, n: nat)
    ensures Counter(m) == Counter(n) <==> (m - n) % TWO_64 == 0
  {
  }
}
