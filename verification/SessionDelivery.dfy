/** Delivery from the server to a client, and keepalives: that they happen, from every reachable state. */
module SessionDelivery {
  import opened Bytes
  import opened Codec
  import opened Aead
  import opened PacketCodec
  import opened PeerIndex
  import opened Addressing
  import opened Ipv4
  import opened ReplayWindow
  import opened Session
  import opened SessionInvariants
  import opened SessionSteps
  import opened SessionSafety
  import opened SessionProgress

  // ---- Server to client ----

  /** From every reachable state, an IPv4 packet for the address of a live client that waits for one can reach that
      client's TUN unchanged, under its peer's next number. */
  lemma DataReturns(network: Network, steps: seq<Step>, s: State, c: nat, r: nat, h: IPHeader, rest: seq<byte>,
                    ciphertext: seq<byte>) returns (longer: seq<Step>, t: State)
    requires Execute(network, steps) == Some(s) && Inv(s) && s.tun == TunReading
    requires SameSession(s, c, r) && LinkOf(s, c).inbox.None? && s.peers[r].id in s.index.byID
    requires s.peers[r].sends + 1 < TWO_64
    requires Whole(h, rest) && h.destination == LinkOf(s, c).tunnelIP
    requires 20 + |rest| <= MAX_PAYLOAD && Tagged(Octets(h) + rest, ciphertext)
    ensures steps <= longer && Execute(network, longer) == Some(t)
    ensures HasLink(t, c) && LinkOf(t, c).inbox.None?
    ensures LinkOf(t, c).delivered ==
            LinkOf(s, c).delivered + [Delivery(s.peers[r].sends + 1, Octets(h) + rest, |s.log|)]
    ensures t.tun == TunReading && t.udp == s.udp && t.writes == s.writes && |t.clients| == |s.clients|
    ensures forall d :: 0 <= d < |s.clients| && d != c ==> t.clients[d] == s.clients[d]
  {
    hide Inv, Execute, Octets, EncodePacket, DecodePacket, PacketSource, PeekHeader, Advance, ExtractDst;
    var packet, link := Octets(h) + rest, LinkOf(s, c);
    DestinationIsRead(h, rest);
    AddressLeadsTo(s, c, r);
    NextNumberAccepted(s, c, r);
    PeerOfSession(s, c, r);
    PacketOpens(s.log, link.key, ServerToClient, DATA, s.peers[r].id, s.peers[r].sends + 1, packet, ciphertext);
    var steps3, s3, buf := ServerSends(network, steps, s, r, link.tunnelIP, link.key, packet, ciphertext);

    var s4 := Receive(s3, c, buf);
    OneMore(network, steps3, s3, StepReceive(c, buf));
    var steps4 := steps3 + [StepReceive(c, buf)];
    assert LinkOf(s4, c).inbox == Some(Delivery(s.peers[r].sends + 1, packet, |s.log|));

    t := DeliverLink(s4, c);
    OneMore(network, steps4, s4, StepDeliverLink(c));
    longer := steps4 + [StepDeliverLink(c)];
  }

  /** ReadTun, DrawData and SendData, with nothing in between. */
  lemma ServerSends(network: Network, steps: seq<Step>, s: State, r: nat, ip: uint32, key: Key, packet: seq<byte>,
                    ciphertext: seq<byte>) returns (longer: seq<Step>, t: State, buf: seq<byte>)
    requires Execute(network, steps) == Some(s) && CanReadTun(s, packet) && Tagged(packet, ciphertext)
    requires ExtractDst(packet) == Dst(ip) && V4(ip) in s.index.byTunnelIP && s.index.byTunnelIP[V4(ip)] == r
    requires r < |s.peers| && s.peers[r].cipher == Some(key)
    ensures steps <= longer && Execute(network, longer) == Some(t)
    ensures t.tun == TunReading && t.udp == s.udp && t.writes == s.writes && t.clients == s.clients
    ensures
      var e := EncodePacket(key, ServerToClient, MessageOf(DATA, s.peers[r].id, Counter(s.peers[r].sends + 1), packet),
                 ciphertext);
      e.Ok? && t.log == s.log + [e.value] && buf == Wire(e.value)
  {
    hide Execute, EncodePacket, ExtractDst;
    var id, sequence := s.peers[r].id, Counter(s.peers[r].sends + 1);
    PacketLayout(key, ServerToClient, DATA, id, sequence, packet, ciphertext);
    buf := Wire(EncodePacket(key, ServerToClient, MessageOf(DATA, id, sequence, packet), ciphertext).value);

    var s1 := ReadTun(s, packet);
    OneMore(network, steps, s, StepReadTun(packet));
    var steps1 := steps + [StepReadTun(packet)];

    var s2 := DrawData(s1);
    OneMore(network, steps1, s1, StepDrawData);
    var steps2 := steps1 + [StepDrawData];
    assert s2.tun == TunDrawn(r, packet, sequence) && s2.peers[r].cipher == Some(key) && s2.peers[r].id == id;

    t := SendData(s2, ciphertext);
    OneMore(network, steps2, s2, StepSendData(ciphertext));
    longer := steps2 + [StepSendData(ciphertext)];
  }

  /** The client's address leads the server to the client's peer, while that lives. */
  lemma AddressLeadsTo(s: State, c: nat, r: nat)
    requires Inv(s) && SameSession(s, c, r) && s.peers[r].id in s.index.byID
    ensures V4(LinkOf(s, c).tunnelIP) in s.index.byTunnelIP && s.index.byTunnelIP[V4(LinkOf(s, c).tunnelIP)] == r
  {
    hide PeersOk, IndexOk, DrawsOk, LogOk, ClientsOk, WritesOk, UdpOk, TunOk, Agrees;
    LiveAsItself(s, r);
    InvIndex(s);
    AgreesOf(s);
    LookupIsScan(s.index, Infos(s), r, s.peers[r].clientRandom, V4(LinkOf(s, c).tunnelIP));
  }

  lemma AgreesOf(s: State)
    requires IndexOk(s)
    ensures Agrees(s.index, Infos(s))
  {
  }

  lemma PeerOfSession(s: State, c: nat, r: nat)
    requires Inv(s) && SameSession(s, c, r)
    ensures s.peers[r].id == r + 1 && LinkOf(s, c).peerID == r + 1
  {
    hide IndexOk, DrawsOk, LogOk, ClientsOk, WritesOk, UdpOk, TunOk, PeersOk;
    PeerAt(s, r);
  }

  /** The client's window has never seen the number its peer draws next, nor anything above it. */
  lemma NextNumberAccepted(s: State, c: nat, r: nat)
    requires Inv(s) && SameSession(s, c, r) && s.peers[r].sends + 1 < TWO_64
    ensures Advance(LinkOf(s, c).window, s.peers[r].sends + 1).1 == Accepted
  {
    hide IndexOk, DrawsOk, LogOk, ClientsOk, WritesOk, UdpOk, TunOk, PeersOk;
    LinkAt(s, c);
    PeerOfSession(s, c, r);
    AdvanceRefines(LinkOf(s, c).window, LinkOf(s, c).accepted, s.peers[r].sends + 1);
  }

  // ---- Keepalives ----

  /** From every reachable state, the keepalive of a live client refreshes its peer, whatever address it comes from, and
      writes nothing to the TUN. Expiry within the next thirty seconds keeps the peer. */
  lemma PingArrives(network: Network, steps: seq<Step>, s: State, c: nat, r: nat, from: Address, tag: seq<byte>)
    returns (longer: seq<Step>, t: State)
    requires Execute(network, steps) == Some(s) && Inv(s) && s.udp == Reading
    requires SameSession(s, c, r) && CanDrawPing(s, c) && |tag| == TAG_LEN && s.peers[r].id in s.index.byID
    requires LinkOf(s, c).sends + 1 < TWO_64
    ensures steps <= longer && Execute(network, longer) == Some(t)
    ensures t.udp == Reading && t.writes == s.writes && t.index == s.index && t.clock == s.clock
    ensures |t.peers| == |s.peers| && t.peers[r].lastSeen == s.clock && t.peers[r].addr == s.peers[r].addr
    ensures forall now :: now - s.clock <= 30 ==> s.peers[r].id in ExpirePeers(t, now).index.byID
  {
    hide Inv, Execute, EncodePacket, DecodePacket, PacketSource, PeekHeader, Advance, Remove;
    var link := LinkOf(s, c);
    PeerOfSession(s, c, r);
    LinkFactsOf(s, c);
    NewNumberAccepted(s, c);
    PacketOpens(s.log, link.key, ClientToServer, KEEPALIVE, link.peerID, link.sends + 1, [], tag);
    var steps2, s2, buf := ClientPings(network, steps, s, c, tag);

    var m := Message(Header(PROTOCOL_VERSION, KEEPALIVE, 0, 0, link.peerID, link.sends + 1), []);
    var steps4, s4 := ServerOpens(network, steps2, s2, r, link.key, m, buf, from, |s.log|);
    longer, t := ServerTouches(network, steps4, s4, r, m, from, |s.log|);
    assert Infos(t) == Infos(s);
    KeptAlive(s, t, r);
  }

  /** DrawPing and SendPing, with nothing in between. */
  lemma ClientPings(network: Network, steps: seq<Step>, s: State, c: nat, tag: seq<byte>)
    returns (longer: seq<Step>, t: State, buf: seq<byte>)
    requires Execute(network, steps) == Some(s) && CanDrawPing(s, c) && |tag| == TAG_LEN
    ensures steps <= longer && Execute(network, longer) == Some(t)
    ensures t.peers == s.peers && t.index == s.index && t.udp == s.udp && t.writes == s.writes && t.clock == s.clock
    ensures
      var m := MessageOf(KEEPALIVE, LinkOf(s, c).peerID, Counter(LinkOf(s, c).sends + 1), []);
      var e := EncodePacket(LinkOf(s, c).key, ClientToServer, m, tag);
      e.Ok? && t.log == s.log + [e.value] && buf == Wire(e.value)
  {
    hide Execute, EncodePacket;
    var link := LinkOf(s, c);
    var sequence := Counter(link.sends + 1);
    PacketLayout(link.key, ClientToServer, KEEPALIVE, link.peerID, sequence, [], tag);
    buf := Wire(EncodePacket(link.key, ClientToServer, MessageOf(KEEPALIVE, link.peerID, sequence, []), tag).value);
    var s1 := DrawPing(s, c);
    OneMore(network, steps, s, StepDrawPing(c));
    t := SendPing(s1, c, tag);
    var steps1 := steps + [StepDrawPing(c)];
    OneMore(network, steps1, s1, StepSendPing(c, tag));
    longer := steps1 + [StepSendPing(c, tag)];
  }

  /** The handler's steps on a keepalive whose number the window accepts. */
  lemma ServerTouches(network: Network, steps: seq<Step>, s: State, r: nat, m: Message, from: Address, source: nat)
    returns (longer: seq<Step>, t: State)
    requires Execute(network, steps) == Some(s) && s.udp == Authenticated(r, m, from, source) && r < |s.peers|
    requires forall id :: id in s.index.byID ==> s.index.byID[id] < |s.peers|
    requires m.header.peerID in s.index.byID && s.index.byID[m.header.peerID] == r && m.header.kind == KEEPALIVE
    requires Advance(s.peers[r].window, m.header.sequence).1 == Accepted
    ensures steps <= longer && Execute(network, longer) == Some(t)
    ensures t == WithPeer(s, r, Accepting(s.peers[r], m.header.sequence).0.(lastSeen := s.clock)).(udp := Reading)
  {
    hide Execute, Advance;
    var p := Accepting(s.peers[r], m.header.sequence).0;
    var s1 := LookupAgain(s);
    OneMore(network, steps, s, StepLookupAgain);
    var steps1 := steps + [StepLookupAgain];
    assert s1 == s.(udp := Handling(r, r, m, source));

    var s2 := AcceptMessage(s1);
    OneMore(network, steps1, s1, StepAcceptMessage);
    var steps2 := steps1 + [StepAcceptMessage];
    assert s2 == WithPeer(s, r, p).(udp := Touching(r));

    t := Touch(s2);
    OneMore(network, steps2, s2, StepTouch);
    longer := steps2 + [StepTouch];
    assert s2.peers[r := p.(lastSeen := s.clock)] == s.peers[r := p.(lastSeen := s.clock)];
  }

  lemma LinkFactsOf(s: State, c: nat)
    requires Inv(s) && HasLink(s, c) && LinkOf(s, c).peerID in s.index.byID
    ensures s.index.byID[LinkOf(s, c).peerID] == LinkOf(s, c).peerID - 1
    ensures forall id :: id in s.index.byID ==> s.index.byID[id] < |s.peers|
  {
    hide Inv;
    LinkFacts(s, c);
  }

  /** Only the window and lastSeen of peers differ, so the indexes still describe them and expiry spares peer r. */
  lemma KeptAlive(s: State, t: State, r: nat)
    requires Inv(s) && r < |s.peers| == |t.peers| && t.index == s.index && s.peers[r].id in s.index.byID
    requires t.peers[r].lastSeen == s.clock && Infos(t) == Infos(s)
    ensures forall now :: now - s.clock <= 30 ==> s.peers[r].id in ExpirePeers(t, now).index.byID
  {
    hide PeersOk, IndexOk, DrawsOk, LogOk, ClientsOk, WritesOk, UdpOk, TunOk, Agrees, Remove;
    LiveAsItself(s, r);
    InvIndex(s);
    AgreesOf(s);
    forall now | now - s.clock <= 30 ensures s.peers[r].id in ExpirePeers(t, now).index.byID {
      RemoveIsRestrict(t.index, Infos(t), Expired(t, now));
      assert r !in Expired(t, now);
    }
  }
}
