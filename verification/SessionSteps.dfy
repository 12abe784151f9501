/** Every step of the session protocol keeps the invariant. */
module SessionSteps {
  import opened Bytes
  import opened Codec
  import opened Aead
  import opened PacketCodec
  import opened PeerIndex
  import opened Addressing
  import opened ReplayWindow
  import opened Session
  import opened SessionInvariants

  // ---- Shapes of steps ----

  /** The udpToTun loop moves on and touches at most one peer's window and lastSeen. */
  lemma WindowStep(s: State, t: State, r: nat, w: Window, accepted: set<uint64>, lastSeen: int)
    requires Inv(s) && r < |s.peers|
    requires t == WithPeer(s, r, s.peers[r].(window := w, accepted := accepted, lastSeen := lastSeen)).(udp := t.udp)
    requires Refines(w, accepted) && s.peers[r].accepted <= accepted
    requires forall x :: x in accepted ==> x in s.peers[r].accepted || DrawnBy(s, r, x)
    requires !t.udp.WelcomeDrawn? && UdpOk(t)
    ensures Inv(t)
  {
    hide PeersOk, IndexOk, DrawsOk, LogOk, ClientsOk, WritesOk, TunOk;
    PeerAt(s, r);
    assert Grows(s, t);
    PeerChanges(s, t, r);
    IndexKeeps(s, t);
    assert forall o :: Count(t, o) == Count(s, o);
    DrawsKeep(s, t);
    LogKeeps(s, t);
    ClientsKeep(s, t);
    TunKeeps(s, t);
    WritesKeep(s, t);
  }

  /** Only the position of the udpToTun loop changes. */
  lemma UdpMoves(s: State, t: State)
    requires Inv(s) && t == s.(udp := t.udp) && !t.udp.WelcomeDrawn? && UdpOk(t)
    ensures Inv(t)
  {
    hide PeersOk, IndexOk, DrawsOk, LogOk, ClientsOk, WritesOk, TunOk;
    assert Grows(s, t);
    PeersKeep(s, t);
    IndexKeeps(s, t);
    assert forall o :: Count(t, o) == Count(s, o);
    DrawsKeep(s, t);
    LogKeeps(s, t);
    ClientsKeep(s, t);
    TunKeeps(s, t);
    WritesKeep(s, t);
  }

  /** Only the position of the tunToUdp loop changes. */
  lemma TunMoves(s: State, t: State)
    requires Inv(s) && t == s.(tun := t.tun) && !t.tun.TunDrawn? && TunOk(t)
    ensures Inv(t)
  {
    hide PeersOk, IndexOk, DrawsOk, LogOk, ClientsOk, WritesOk, UdpOk;
    assert Grows(s, t);
    PeersKeep(s, t);
    IndexKeeps(s, t);
    assert forall o :: Count(t, o) == Count(s, o);
    DrawsKeep(s, t);
    LogKeeps(s, t);
    ClientsKeep(s, t);
    UdpKeeps(s, t);
    WritesKeep(s, t);
  }

  /** Only one client changes. */
  lemma ClientMoves(s: State, t: State, c: nat)
    requires Inv(s) && c < |s.clients| && |t.clients| == |s.clients| && t == s.(clients := s.clients[c := t.clients[c]])
    requires ClientGrows(s.clients[c], t.clients[c])
    requires HasLink(t, c) ==> LinkOk(t, c)
    requires DrawsOk(t) && PendingApart(t)
    ensures Inv(t)
  {
    hide PeersOk, IndexOk, DrawsOk, LogOk, ClientsOk, WritesOk, UdpOk, TunOk;
    assert Grows(s, t);
    PeersKeep(s, t);
    IndexKeeps(s, t);
    LogKeeps(s, t);
    ClientChanges(s, t, c);
    UdpKeeps(s, t);
    TunKeeps(s, t);
    WritesKeep(s, t);
  }

  // ---- Server: registration ----

  lemma UdpReceiveKeeps(s: State, packet: seq<byte>, from: Address)
    requires Inv(s) && s.udp == Reading && InBounds(UdpReceive(s, packet, from))
    ensures Inv(UdpReceive(s, packet, from))
  {
    hide PeersOk, IndexOk, DrawsOk, LogOk, ClientsOk, WritesOk, TunOk;
    var t := UdpReceive(s, packet, from);
    if t != s {
      var header := PeekHeader(packet).value;
      if header.kind == ALOHA {
        var (m, random) := DecodeAloha(s.log, packet).value;
        RegisterKeeps(s, packet, from, random, m.header.sequence);
      } else {
        LiveByID(s, header.peerID);
        PeerAt(s, header.peerID - 1);
        UdpMoves(s, t);
      }
    }
  }

  lemma RegisterKeeps(s: State, packet: seq<byte>, from: Address, random: Random, sequence: uint64)
    requires Inv(s) && s.udp == Reading
    requires |packet| >= PREFIX_LEN && RandomOf(packet) == random
    requires OpenHandshake(s.log, AlohaKey(random), ClientToServer, packet).Ok?
    requires sequence == OpenHandshake(s.log, AlohaKey(random), ClientToServer, packet).value.header.sequence
    requires InBounds(RegisterPeer(s, packet, from, random, sequence))
    ensures Inv(RegisterPeer(s, packet, from, random, sequence))
  {
    hide PeersOk, IndexOk, DrawsOk, LogOk, ClientsOk, WritesOk, TunOk;
    var t := RegisterPeer(s, packet, from, random, sequence);
    if t != s {
      var r := |s.peers|;
      assert Grows(s, t);
      HelloIsGenuine(s, packet, random);
      EmptyRefines();
      RegisterIndex(s, packet, from, random, sequence);
      NewPeerOk(s, t);
      assert forall o :: Count(s, o) <= Count(t, o);
      DrawsKeep(s, t);
      LogKeeps(s, t);
      ClientsKeep(s, t);
      TunKeeps(s, t);
      WritesKeep(s, t);
    }
  }

  lemma RegisterIndex(s: State, packet: seq<byte>, from: Address, random: Random, sequence: uint64)
    requires IndexOk(s) && |s.peers| + 2 < TWO_64 && |packet| >= PREFIX_LEN && random !in s.index.byClientRandom
    ensures IndexOk(RegisterPeer(s, packet, from, random, sequence)) && s.index.nextID == |s.peers| + 1
  {
    hide Agrees;
    var t := RegisterPeer(s, packet, from, random, sequence);
    InsertAgrees(s.index, Infos(s), |s.peers|, random);
    assert Infos(t) == Infos(s)[|s.peers| := Info(s.index.nextID, random, Unset)];
  }

  lemma NewPeerOk(s: State, t: State)
    requires PeersOk(s) && Grows(s, t) && |t.peers| == |s.peers| + 1 && t.peers[..|s.peers|] == s.peers
    requires PeerOk(t, |s.peers|) && t.peers[|s.peers|].serverRandom.None?
    ensures PeersOk(t)
  {
    forall r | 0 <= r < |t.peers| ensures PeerOk(t, r) {
      if r < |s.peers| {
        assert t.peers[r] == s.peers[r];
        PeerAt(s, r);
        GreetedGrows(s, t, s.peers[r], t.peers[r]);
      }
    }
    assert forall r :: 0 <= r < |s.peers| ==> t.peers[r] == s.peers[r];
  }

  /** An ALOHA that authenticates was sealed by the client that drew its random. */
  lemma HelloIsGenuine(s: State, packet: seq<byte>, random: Random)
    requires LogOk(s) && DrawsOk(s) && ClientsOk(s) && PeersOk(s)
    requires |packet| >= PREFIX_LEN && RandomOf(packet) == random
    requires OpenHandshake(s.log, AlohaKey(random), ClientToServer, packet).Ok?
    ensures HandshakeSource(s.log, AlohaKey(random), ClientToServer, packet).Some?
    ensures OpenHandshake(s.log, AlohaKey(random), ClientToServer, packet).value.header.sequence == 1
    ensures
      var i := HandshakeSource(s.log, AlohaKey(random), ClientToServer, packet).value;
      && i < |s.origins| && s.origins[i].kind == ALOHA && s.origins[i].owner.ByClient?
      && s.origins[i].owner.client < |s.clients| && s.clients[s.origins[i].owner.client].random == random
  {
    OpenedWasSealed(s.log, AlohaKey(random), ClientToServer, packet);
    var m := OpenHandshake(s.log, AlohaKey(random), ClientToServer, packet).value;
    var i := HandshakeSource(s.log, AlohaKey(random), ClientToServer, packet).value;
    var o := s.origins[i];
    assert RecordFits(s, s.log[i], o);
    NonceInjective(ClientToServer, m.header.sequence, ServerToClient, o.sequence);
    NonceInjective(ClientToServer, m.header.sequence, ClientToServer, o.sequence);
    ClientKeyKinds(s, s.log[i], o, random);
  }

  /** A client seals under an ALOHA key nothing but ALOHA. */
  lemma ClientKeyKinds(s: State, sealed: Sealed, o: Origin, random: Random)
    requires ClientsOk(s) && PeersOk(s) && RecordFits(s, sealed, o) && o.owner.ByClient?
    ensures o.kind != ALOHA ==> sealed.key != AlohaKey(random)
    ensures o.kind == ALOHA ==> |sealed.key.input| == RANDOM_LEN
  {
    if o.kind != ALOHA {
      LinkKeyIsPeerKey(s, o.owner.client);
      var link := LinkOf(s, o.owner.client);
      KeyKindsDisjoint(link.peerID, s.clients[o.owner.client].random, link.serverRandom, random, random, random);
    }
  }

  lemma LinkKeyIsPeerKey(s: State, c: nat)
    requires ClientsOk(s) && PeersOk(s) && HasLink(s, c)
    ensures LinkOf(s, c).key == PeerKey(LinkOf(s, c).peerID, s.clients[c].random, LinkOf(s, c).serverRandom)
  {
    LinkAt(s, c);
    PeerAt(s, LinkOf(s, c).peerID - 1);
  }

  lemma AcceptHelloKeeps(s: State)
    requires Inv(s) && CanAcceptHello(s)
    ensures Inv(AcceptHello(s))
  {
    hide PeersOk, IndexOk, DrawsOk, LogOk, ClientsOk, WritesOk, TunOk;
    var r := s.udp.peer;
    PeerAt(s, r);
    AdvanceRefines(s.peers[r].window, s.peers[r].accepted, s.udp.sequence);
    var p := Accepting(s.peers[r], s.udp.sequence).0;
    HelloIsDrawn(s, r);
    WindowStep(s, AcceptHello(s), r, p.window, p.accepted, p.lastSeen);
  }

  lemma SetCipherKeeps(s: State, serverRandom: Random)
    requires Inv(s) && CanSetCipher(s, serverRandom)
    ensures Inv(SetCipher(s, serverRandom))
  {
    hide PeersOk, IndexOk, DrawsOk, LogOk, ClientsOk, WritesOk, TunOk;
    var t := SetCipher(s, serverRandom);
    var r := s.udp.peer;
    PeerAt(s, r);
    assert Grows(s, t);
    PeerChanges(s, t, r);
    IndexKeeps(s, t);
    assert forall o :: Count(t, o) == Count(s, o);
    DrawsKeep(s, t);
    LogKeeps(s, t);
    ClientsKeep(s, t);
    TunKeeps(s, t);
    WritesKeep(s, t);
  }

  /** The address allocated for a peer that has none is in nobody's hands. */
  lemma AllocatedIsFree(s: State, r: nat, ip: uint32)
    requires PeersOk(s) && IndexOk(s) && r < |s.peers| && s.peers[r].tunnelIP == Unset
    requires Allocate(s.network, s.peers[r].id) == Some(ip)
    ensures V4(ip) !in s.index.byTunnelIP
  {
    if V4(ip) in s.index.byTunnelIP {
      var q := s.index.byTunnelIP[V4(ip)];
      PeerAt(s, q); PeerAt(s, r);
      AllocateIsBijective(s.network, ip);
    }
  }

  lemma RouteIndex(s: State, t: State, id: uint64, ip: TunnelIP)
    requires IndexOk(s) && ip.V4? && SetTunnelIP(s.index, id, ip).Set? && s.index.byID[id] < |s.peers|
    requires s.peers[s.index.byID[id]].tunnelIP == Unset
    requires
      var r := s.index.byID[id];
      t.network == s.network && t.index == SetTunnelIP(s.index, id, ip).index
      && t.peers == s.peers[r := s.peers[r].(tunnelIP := ip)]
    ensures IndexOk(t)
  {
    hide Agrees;
    var r := s.index.byID[id];
    SetTunnelIPAgrees(s.index, Infos(s), id, ip);
    assert Infos(t) == Infos(s)[r := Infos(s)[r].(tunnelIP := ip)];
  }

  lemma RoutePeerKeeps(s: State)
    requires Inv(s) && CanRoute(s)
    ensures Inv(RoutePeer(s))
  {
    hide PeersOk, IndexOk, DrawsOk, LogOk, ClientsOk, WritesOk, TunOk;
    var t := RoutePeer(s);
    var r := s.udp.peer;
    var id := s.peers[r].id;
    PeerAt(s, r);
    if t.udp == UdpDown {
      UdpMoves(s, t);
    } else {
      LiveByID(s, id);
      var ip := Allocate(s.network, id).value;
      assert Grows(s, t);
      PeerChanges(s, t, r);
      RouteIndex(s, t, id, V4(ip));
      assert forall o :: Count(t, o) == Count(s, o);
      DrawsKeep(s, t);
      LogKeeps(s, t);
      ClientsKeep(s, t);
      TunKeeps(s, t);
      WritesKeep(s, t);
    }
  }

  /** Either server loop draws the next number of a peer's counter. */
  lemma PeerDraws(s: State, t: State, r: nat)
    requires DrawsOk(s) && PendingApart(s) && r < |s.peers| && s.peers[r].sends + 1 < TWO_64
    requires t.peers == s.peers[r := Drawing(s.peers[r])] && t.clients == s.clients && t.log == s.log
             && t.origins == s.origins
    requires
      || (t.tun == s.tun && t.udp.WelcomeDrawn? && t.udp.peer == r && t.udp.sequence == s.peers[r].sends + 1)
      || (t.udp == s.udp && t.tun.TunDrawn? && t.tun.peer == r && t.tun.sequence == s.peers[r].sends + 1)
    ensures DrawsOk(t) && PendingApart(t)
  {
    hide DrawsOk;
    DrawsDraw(s, t, ByPeer(r));
    if s.tun.TunDrawn? {
      PendingAt(s, ByPeer(s.tun.peer), s.tun.sequence);
    }
    if s.udp.WelcomeDrawn? {
      PendingAt(s, ByPeer(s.udp.peer), s.udp.sequence);
    }
  }

  /** The invariant after a draw, apart from the position of the loop that drew. */
  lemma DrawStep(s: State, t: State, r: nat)
    requires Inv(s) && r < |s.peers| && s.peers[r].sends + 1 < TWO_64
    requires t == s.(peers := s.peers[r := Drawing(s.peers[r])], udp := t.udp, tun := t.tun)
    requires
      || (t.tun == s.tun && t.udp.WelcomeDrawn? && t.udp.peer == r && t.udp.sequence == s.peers[r].sends + 1)
      || (t.udp == s.udp && t.tun.TunDrawn? && t.tun.peer == r && t.tun.sequence == s.peers[r].sends + 1)
    ensures Grows(s, t)
    ensures PeersOk(t) && IndexOk(t) && DrawsOk(t) && PendingApart(t) && LogOk(t) && ClientsOk(t) && WritesOk(t)
  {
    hide PeersOk, IndexOk, DrawsOk, LogOk, ClientsOk, WritesOk, UdpOk, TunOk, Pending, PendingApart;
    PeerAt(s, r);
    assert Grows(s, t);
    PeerChanges(s, t, r);
    IndexKeeps(s, t);
    PeerDraws(s, t, r);
    LogKeeps(s, t);
    ClientsKeep(s, t);
    WritesKeep(s, t);
  }

  lemma DrawWelcomeKeeps(s: State)
    requires Inv(s) && CanDrawWelcome(s) && InBounds(DrawWelcome(s))
    ensures Inv(DrawWelcome(s))
  {
    hide PeersOk, IndexOk, DrawsOk, LogOk, ClientsOk, WritesOk, TunOk;
    var t := DrawWelcome(s);
    assert t.peers[s.udp.peer].sends < TWO_64;
    DrawStep(s, t, s.udp.peer);
    TunKeeps(s, t);
  }

  lemma SendWelcomeKeeps(s: State, ciphertext: seq<byte>)
    requires Inv(s) && CanSendWelcome(s, ciphertext)
    ensures Inv(SendWelcome(s, ciphertext))
  {
    hide PeersOk, IndexOk, DrawsOk, LogOk, ClientsOk, WritesOk, TunOk;
    var t := SendWelcome(s, ciphertext);
    var u := s.udp;
    var id := s.peers[u.peer].id;
    var m := MessageOf(WELCOME, id, u.sequence, WelcomePayload(u.ip, MTU));
    var key := WelcomeKey(u.random, u.serverRandom);
    HandshakeLayout(key, ServerToClient, WELCOME, m, u.serverRandom, ciphertext);
    var sealed := EncodeWelcome(key, m, u.serverRandom, ciphertext).value;
    var o := Origin(ByPeer(u.peer), u.sequence, WELCOME);
    assert Grows(s, t);
    PendingAt(s, o.owner, o.sequence);
    assert RecordFits(t, sealed, o);
    PeersKeep(s, t);
    IndexKeeps(s, t);
    DrawsSeal(s, t, o);
    LogAppends(s, t, sealed, o);
    ClientsKeep(s, t);
    TunKeeps(s, t);
    WritesKeep(s, t);
  }

  // ---- Server: DATA and KEEPALIVE from clients ----

  /** A packet that opens under a peer's cipher is what that peer's own client sealed. */
  lemma OpenedIsGenuine(s: State, r: nat, packet: seq<byte>)
    requires LogOk(s) && DrawsOk(s) && ClientsOk(s) && PeersOk(s)
    requires r < |s.peers| && s.peers[r].cipher.Some?
    requires DecodePacket(s.log, s.peers[r].cipher.value, ClientToServer, packet).Ok?
    ensures PacketSource(s.log, s.peers[r].cipher.value, ClientToServer, packet).Some?
    ensures
      var key := s.peers[r].cipher.value;
      var m := DecodePacket(s.log, key, ClientToServer, packet).value;
      var i := PacketSource(s.log, key, ClientToServer, packet).value;
      FromClient(s, r, m.header.kind, m.header.sequence, m.payload, i) && m.header.peerID == s.peers[r].id
      && (m.header.kind == DATA || m.header.kind == KEEPALIVE)
  {
    var key := s.peers[r].cipher.value;
    DecodedWasSealed(s.log, key, ClientToServer, packet);
    var m := DecodePacket(s.log, key, ClientToServer, packet).value;
    var i := PacketSource(s.log, key, ClientToServer, packet).value;
    var o := s.origins[i];
    assert RecordFits(s, s.log[i], o);
    PeerAt(s, r);
    var p := s.peers[r];
    NonceInjective(ClientToServer, m.header.sequence, ServerToClient, o.sequence);
    NonceInjective(ClientToServer, m.header.sequence, ClientToServer, o.sequence);
    var c := o.owner.client;
    if o.kind == ALOHA {
      KeyKindsDisjoint(p.id, p.clientRandom, p.serverRandom.value, p.clientRandom, p.clientRandom, s.clients[c].random);
    } else {
      LinkKeyIsPeerKey(s, c);
      var link := LinkOf(s, c);
      PeerKeyInjective(link.peerID, s.clients[c].random, link.serverRandom, p.id, p.clientRandom, p.serverRandom.value);
      LinkAt(s, c);
      var h := Header(PROTOCOL_VERSION, o.kind, 0, 0, link.peerID, o.sequence);
      PeekReads(h, []);
      PeekReads(m.header, []);
      assert HeaderBytes(h) + [] == HeaderBytes(m.header) + [];
    }
  }

  lemma OpenFoundKeeps(s: State)
    requires Inv(s) && CanOpen(s)
    ensures Inv(OpenFound(s))
  {
    hide PeersOk, IndexOk, DrawsOk, LogOk, ClientsOk, WritesOk, TunOk;
    var t := OpenFound(s);
    if t.udp.Authenticated? {
      OpenedIsGenuine(s, s.udp.peer, s.udp.packet);
      var source := t.udp.source;
      FromClientGrows(s, t, t.udp.peer, t.udp.message.header.kind, t.udp.message.header.sequence,
        t.udp.message.payload, source);
    }
    UdpMoves(s, t);
  }

  lemma LookupAgainKeeps(s: State)
    requires Inv(s) && CanLookup(s)
    ensures Inv(LookupAgain(s))
  {
    hide PeersOk, IndexOk, DrawsOk, LogOk, ClientsOk, WritesOk, TunOk;
    var t := LookupAgain(s);
    var u := s.udp;
    if t.udp.Handling? {
      LiveByID(s, u.message.header.peerID);
      PeerAt(s, u.peer);
      FromClientGrows(s, t, u.peer, u.message.header.kind, u.message.header.sequence, u.message.payload, u.source);
    }
    UdpMoves(s, t);
  }

  lemma NewIsUnwritten(s: State, r: nat, sequence: uint64)
    requires WritesOk(s) && r < |s.peers| && sequence !in s.peers[r].accepted
    ensures Unwritten(s, r, sequence)
  {
  }

  lemma AcceptMessageKeeps(s: State)
    requires Inv(s) && CanAcceptMessage(s)
    ensures Inv(AcceptMessage(s))
  {
    hide PeersOk, IndexOk, DrawsOk, LogOk, ClientsOk, WritesOk, TunOk;
    var t := AcceptMessage(s);
    var u := s.udp;
    var r, sequence := u.peer, u.message.header.sequence;
    PeerAt(s, r);
    AdvanceRefines(s.peers[r].window, s.peers[r].accepted, sequence);
    var (p, v) := Accepting(s.peers[r], sequence);
    if t.udp.Delivering? {
      assert Grows(s, t);
      FromClientGrows(s, t, r, u.message.header.kind, sequence, u.message.payload, u.source);
      NewIsUnwritten(s, r, sequence);
    }
    GenuineIsDrawn(s, r, u.message, u.source);
    WindowStep(s, t, r, p.window, p.accepted, p.lastSeen);
  }

  lemma GenuineIsDrawn(s: State, r: nat, m: Message, source: nat)
    requires PeersOk(s) && ClientsOk(s) && DrawsOk(s) && Genuine(s, r, m, source)
    ensures DrawnBy(s, r, m.header.sequence)
  {
    PeerAt(s, r);
    OneClientPerRandom(s, s.origins[source].owner.client, s.origins[s.peers[r].hello].owner.client);
  }

  lemma OneClientPerRandom(s: State, c: nat, d: nat)
    requires ClientsOk(s) && c < |s.clients| && d < |s.clients| && s.clients[c].random == s.clients[d].random
    ensures c == d
  {
  }

  lemma DeliverKeeps(s: State)
    requires Inv(s) && CanDeliver(s)
    ensures Inv(Deliver(s))
  {
    hide PeersOk, IndexOk, DrawsOk, LogOk, ClientsOk, WritesOk, TunOk;
    var t := Deliver(s);
    assert Grows(s, t);
    PeersKeep(s, t);
    IndexKeeps(s, t);
    assert forall o :: Count(t, o) == Count(s, o);
    DrawsKeep(s, t);
    LogKeeps(s, t);
    ClientsKeep(s, t);
    TunKeeps(s, t);
    DeliverWrites(s, t);
  }

  lemma DeliverWrites(s: State, t: State)
    requires Inv(s) && CanDeliver(s) && t == Deliver(s) && Grows(s, t)
    ensures WritesOk(t)
  {
    hide PeersOk, IndexOk, DrawsOk, LogOk, ClientsOk, TunOk;
    forall i | 0 <= i < |t.writes|
      ensures FromClient(t, t.writes[i].peer, DATA, t.writes[i].sequence, t.writes[i].payload, t.writes[i].source)
              && t.writes[i].sequence in t.peers[t.writes[i].peer].accepted
    {
      var w := t.writes[i];
      FromClientGrows(s, t, w.peer, DATA, w.sequence, w.payload, w.source);
    }
  }

  lemma TouchKeeps(s: State)
    requires Inv(s) && CanTouch(s)
    ensures Inv(Touch(s))
  {
    hide PeersOk, IndexOk, DrawsOk, LogOk, ClientsOk, WritesOk, TunOk;
    var r := s.udp.peer;
    PeerAt(s, r);
    WindowStep(s, Touch(s), r, s.peers[r].window, s.peers[r].accepted, s.clock);
  }

  // ---- Server: DATA to clients ----

  lemma RoutedTo(s: State, ip: TunnelIP)
    requires IndexOk(s) && ip in s.index.byTunnelIP
    ensures ip.V4? && s.index.byTunnelIP[ip] < |s.peers| && s.peers[s.index.byTunnelIP[ip]].tunnelIP == ip
  {
  }

  lemma ReadTunKeeps(s: State, packet: seq<byte>)
    requires Inv(s) && CanReadTun(s, packet)
    ensures Inv(ReadTun(s, packet))
  {
    hide PeersOk, IndexOk, DrawsOk, LogOk, ClientsOk, WritesOk, UdpOk;
    var t := ReadTun(s, packet);
    if t.tun.TunFound? {
      RoutedTo(s, V4(ExtractDst(packet).addr));
    }
    TunMoves(s, t);
  }

  lemma DrawDataKeeps(s: State)
    requires Inv(s) && CanDrawData(s) && InBounds(DrawData(s))
    ensures Inv(DrawData(s))
  {
    hide PeersOk, IndexOk, DrawsOk, LogOk, ClientsOk, WritesOk, UdpOk;
    var t := DrawData(s);
    assert t.peers[s.tun.peer].sends < TWO_64;
    DrawStep(s, t, s.tun.peer);
    UdpKeeps(s, t);
  }

  lemma PacketLayout(key: Key, d: Direction, kind: byte, id: uint64, sequence: uint64, payload: seq<byte>,
                     ciphertext: seq<byte>)
    requires ValidType(kind) && |payload| <= MAX_PAYLOAD
    ensures EncodePacket(key, d, MessageOf(kind, id, sequence, payload), ciphertext) ==
            Ok(Sealed(key, Nonce(d, sequence), HeaderBytes(Header(PROTOCOL_VERSION, kind, 0, 0, id, sequence)),
              payload, ciphertext))
  {
    var packet := Encode(MessageOf(kind, id, sequence, payload)).value;
    assert packet[HEADER_LEN..] == payload;
  }

  lemma SendDataKeeps(s: State, ciphertext: seq<byte>)
    requires Inv(s) && CanSendData(s, ciphertext)
    ensures Inv(SendData(s, ciphertext))
  {
    hide PeersOk, IndexOk, DrawsOk, LogOk, ClientsOk, WritesOk, UdpOk;
    var t := SendData(s, ciphertext);
    var u := s.tun;
    PeerAt(s, u.peer);
    var p := s.peers[u.peer];
    var o := Origin(ByPeer(u.peer), u.sequence, DATA);
    PacketLayout(p.cipher.value, ServerToClient, DATA, p.id, u.sequence, u.packet, ciphertext);
    var sealed := EncodePacket(p.cipher.value, ServerToClient, MessageOf(DATA, p.id, u.sequence, u.packet),
      ciphertext).value;
    assert Grows(s, t);
    PendingAt(s, o.owner, o.sequence);
    assert RecordFits(t, sealed, o);
    PeersKeep(s, t);
    IndexKeeps(s, t);
    DrawsSeal(s, t, o);
    LogAppends(s, t, sealed, o);
    ClientsKeep(s, t);
    UdpKeeps(s, t);
    WritesKeep(s, t);
  }

  lemma ExpireIndex(s: State, now: int)
    requires IndexOk(s)
    ensures IndexOk(ExpirePeers(s, now))
    ensures ExpirePeers(s, now).index == Restrict(s.index, Expired(s, now))
  {
    RemoveIsRestrict(s.index, Infos(s), Expired(s, now));
    assert Infos(ExpirePeers(s, now)) == Infos(s);
  }

  lemma ExpireKeeps(s: State, now: int)
    requires Inv(s)
    ensures Inv(ExpirePeers(s, now))
  {
    hide PeersOk, IndexOk, DrawsOk, LogOk, ClientsOk, WritesOk, UdpOk, TunOk;
    var t := ExpirePeers(s, now);
    ExpireIndex(s, now);
    assert Grows(s, t);
    PeersKeep(s, t);
    assert forall o :: Count(t, o) == Count(s, o);
    DrawsKeep(s, t);
    LogKeeps(s, t);
    ClientsKeep(s, t);
    UdpKeeps(s, t);
    TunKeeps(s, t);
    WritesKeep(s, t);
  }

  lemma TickKeeps(s: State, clock: int)
    requires Inv(s)
    ensures Inv(s.(clock := clock))
  {
    hide PeersOk, IndexOk, DrawsOk, LogOk, ClientsOk, WritesOk, UdpOk, TunOk;
    var t := s.(clock := clock);
    assert Grows(s, t);
    PeersKeep(s, t);
    IndexKeeps(s, t);
    assert forall o :: Count(t, o) == Count(s, o);
    DrawsKeep(s, t);
    LogKeeps(s, t);
    ClientsKeep(s, t);
    UdpKeeps(s, t);
    TunKeeps(s, t);
    WritesKeep(s, t);
  }

  // ---- Clients ----

  lemma HelloKeeps(s: State, random: Random, ciphertext: seq<byte>)
    requires Inv(s) && CanHello(s, random, ciphertext)
    ensures Inv(Hello(s, random, ciphertext))
  {
    hide PeersOk, IndexOk, DrawsOk, LogOk, ClientsOk, WritesOk, UdpOk, TunOk;
    var t := Hello(s, random, ciphertext);
    var c := |s.clients|;
    var m := MessageOf(ALOHA, 0, 1, []);
    HandshakeLayout(AlohaKey(random), ClientToServer, ALOHA, m, random, ciphertext);
    var sealed := EncodeAloha(AlohaKey(random), m, random, ciphertext).value;
    var o := Origin(ByClient(c), 1, ALOHA);
    assert Grows(s, t);
    assert RecordFits(t, sealed, o);
    PeersKeep(s, t);
    IndexKeeps(s, t);
    HelloDraws(s, t, o);
    LogAppends(s, t, sealed, o);
    NewClientOk(s, t);
    UdpKeeps(s, t);
    TunKeeps(s, t);
    WritesKeep(s, t);
  }

  lemma HelloDraws(s: State, t: State, o: Origin)
    requires DrawsOk(s) && o.owner == ByClient(|s.clients|) && o.sequence == 1
    requires |t.log| == |s.log| + 1 && t.origins == s.origins + [o] && t.peers == s.peers && t.udp == s.udp
             && t.tun == s.tun
    requires |t.clients| == |s.clients| + 1 && t.clients[..|s.clients|] == s.clients && !HasLink(t, |s.clients|)
    ensures DrawsOk(t)
  {
    hide DrawsOk;
    NothingFromFuture(s, o.owner);
    assert forall d :: 0 <= d < |s.clients| ==> t.clients[d] == s.clients[d];
    DrawsSeal(s, t, o);
  }

  lemma NothingFromFuture(s: State, o: Owner)
    requires DrawsOk(s) && Count(s, o) == 0
    ensures Unused(s, o, 1)
  {
  }

  lemma NewClientOk(s: State, t: State)
    requires ClientsOk(s) && Grows(s, t) && |t.clients| == |s.clients| + 1 && t.clients[..|s.clients|] == s.clients
    requires !HasLink(t, |s.clients|) && FreshClientRandom(s, t.clients[|s.clients|].random)
    ensures ClientsOk(t)
  {
    assert forall d :: 0 <= d < |s.clients| ==> t.clients[d] == s.clients[d];
    forall d | HasLink(t, d) ensures LinkOk(t, d) {
      assert HasLink(s, d);
      LinkKeeps(s, t, d);
    }
  }

  lemma RecordAt(s: State, i: nat)
    requires LogOk(s) && i < |s.log|
    ensures i < |s.origins| && RecordFits(s, s.log[i], s.origins[i])
  {
  }

  lemma DrawnAt(s: State, i: nat)
    requires DrawsOk(s) && i < |s.origins|
    ensures 1 <= s.origins[i].sequence <= Count(s, s.origins[i].owner)
  {
  }

  lemma WelcomeOpened(log: seq<Sealed>, packet: seq<byte>, random: Random)
    requires DecodeWelcome(log, packet, random).Ok?
    ensures
      var (m, serverRandom) := DecodeWelcome(log, packet, random).value;
      && |packet| >= PREFIX_LEN && serverRandom == RandomOf(packet)
      && OpenHandshake(log, WelcomeKey(random, serverRandom), ServerToClient, packet) == Ok(m)
      && PeekHeader(packet).value.kind == WELCOME && PeekHeader(packet).value.peerID != 0
  {
  }

  /** A WELCOME that opens under a client's random was sealed by a peer registered for that random. */
  lemma WelcomeIsGenuine(s: State, c: nat, packet: seq<byte>)
    requires LogOk(s) && DrawsOk(s) && ClientsOk(s) && PeersOk(s) && c < |s.clients|
    requires DecodeWelcome(s.log, packet, s.clients[c].random).Ok?
    ensures
      var (m, serverRandom) := DecodeWelcome(s.log, packet, s.clients[c].random).value;
      && 1 <= m.header.peerID <= |s.peers|
      && var p := s.peers[m.header.peerID - 1];
      && p.clientRandom == s.clients[c].random && p.serverRandom == Some(serverRandom) && p.tunnelIP.V4? && p.sends >= 1
      && m.payload == WelcomePayload(p.tunnelIP.addr, MTU) && m.header.kind == WELCOME
  {
    hide LogOk, DrawsOk, ClientsOk, PeersOk, DecodeWelcome;
    var random := s.clients[c].random;
    WelcomeOpened(s.log, packet, random);
    var (m, serverRandom) := DecodeWelcome(s.log, packet, random).value;
    var key := WelcomeKey(random, serverRandom);
    OpenedWasSealed(s.log, key, ServerToClient, packet);
    var i := HandshakeSource(s.log, key, ServerToClient, packet).value;
    RecordAt(s, i);
    DrawnAt(s, i);
    var o := s.origins[i];
    WelcomeOwner(s, s.log[i], o, random, serverRandom, m.header.sequence);
    hide RecordFits, HeaderBytes, PeekHeader;
    var p := s.peers[o.owner.peer];
    var h := Header(PROTOCOL_VERSION, WELCOME, 0, 0, p.id, o.sequence);
    SamePrefixSameHeader(h, p.serverRandom.value, m.header, RandomOf(packet));
  }

  /** A record under a WELCOME key is a WELCOME of the peer with these randoms. */
  lemma WelcomeOwner(s: State, x: Sealed, o: Origin, random: Random, serverRandom: Random, sequence: uint64)
    requires PeersOk(s) && RecordFits(s, x, o)
    requires x.key == WelcomeKey(random, serverRandom) && x.nonce == Nonce(ServerToClient, sequence)
    ensures o.owner.ByPeer? && o.kind == WELCOME && o.owner.peer < |s.peers|
    ensures
      var p := s.peers[o.owner.peer];
      && p.id == o.owner.peer + 1 && p.clientRandom == random && p.serverRandom == Some(serverRandom)
      && p.tunnelIP.V4? && x.plain == WelcomePayload(p.tunnelIP.addr, MTU)
      && x.aad == HeaderBytes(Header(PROTOCOL_VERSION, WELCOME, 0, 0, p.id, o.sequence)) + serverRandom
  {
    hide PeersOk, WelcomeKey, PeerKey, AlohaKey, HeaderBytes;
    NonceInjective(ServerToClient, sequence, ClientToServer, o.sequence);
    var r := o.owner.peer;
    PeerAt(s, r);
    var p := s.peers[r];
    KeyKindsDisjoint(p.id, p.clientRandom, p.serverRandom.value, random, serverRandom, random);
    WelcomeKeyInjective(random, serverRandom, p.clientRandom, p.serverRandom.value);
  }

  lemma SamePrefixSameHeader(h: Header, a: seq<byte>, k: Header, b: seq<byte>)
    requires HeaderBytes(h) + a == HeaderBytes(k) + b
    ensures h == k
  {
    hide HeaderBytes, PeekHeader;
    PeekReads(h, a);
    PeekReads(k, b);
  }

  lemma WelcomedLinkOk(s: State, c: nat, packet: seq<byte>)
    requires LogOk(s) && DrawsOk(s) && ClientsOk(s) && PeersOk(s) && CanFinishHandshake(s, c)
    ensures HasLink(FinishHandshake(s, c, packet), c) ==> LinkOk(FinishHandshake(s, c, packet), c)
  {
    hide LogOk, DrawsOk, ClientsOk, PeersOk;
    var t := FinishHandshake(s, c, packet);
    if HasLink(t, c) {
      WelcomeIsGenuine(s, c, packet);
      var (m, serverRandom) := DecodeWelcome(s.log, packet, s.clients[c].random).value;
      PeerAt(s, m.header.peerID - 1);
      WelcomePayloadReads(s.peers[m.header.peerID - 1].tunnelIP.addr, MTU);
      FirstAccepted();
    }
  }

  lemma FirstAccepted()
    ensures Refines(Advance(EMPTY_WINDOW, 1).0, {1})
  {
    EmptyRefines();
    AdvanceRefines(EMPTY_WINDOW, {}, 1);
    assert {} + {1} == {1 as uint64};
  }

  lemma FinishHandshakeKeeps(s: State, c: nat, packet: seq<byte>)
    requires Inv(s) && CanFinishHandshake(s, c)
    ensures Inv(FinishHandshake(s, c, packet))
  {
    hide PeersOk, IndexOk, DrawsOk, LogOk, ClientsOk, WritesOk, UdpOk, TunOk, DecodeWelcome, LinkOk;
    var t := FinishHandshake(s, c, packet);
    WelcomedLinkOk(s, c, packet);
    OthersSame(s, t, c);
    assert forall o :: Count(t, o) == Count(s, o);
    DrawsKeep(s, t);
    ClientMoves(s, t, c);
  }

  lemma OthersSame(s: State, t: State, c: nat)
    requires c < |s.clients| && |t.clients| == |s.clients| && t.clients == s.clients[c := t.clients[c]]
    ensures forall d :: d != c ==> (HasLink(t, d) <==> HasLink(s, d))
    ensures forall d :: d != c && HasLink(t, d) ==> LinkOf(t, d) == LinkOf(s, d)
  {
  }

  /** The parts of LinkOk that only a delivery changes. */
  lemma LinkSends(s: State, t: State, c: nat, link: Link)
    requires Inv(s) && HasLink(s, c) && t == WithLink(s, c, link)
    requires link == LinkOf(s, c).(sends := link.sends, tun := link.tun, ping := link.ping)
             && LinkOf(s, c).sends <= link.sends
    requires link.tun.Some? ==> 0 < |link.tun.value.payload| <= MAX_PAYLOAD
    ensures ClientGrows(s.clients[c], t.clients[c]) && LinkOk(t, c)
  {
    var held := LinkOf(s, c);
    LinkAt(s, c);
    assert Grows(s, t);
    SameSessionGrows(s, t, c, held.peerID - 1);
    assert PeerGrows(s.peers[held.peerID - 1], t.peers[held.peerID - 1]);
    forall i | 0 <= i < |held.delivered| ensures FromPeer(t, c, held.delivered[i]) {
      FromPeerGrows(s, t, c, held.delivered[i]);
    }
    if held.inbox.Some? {
      FromPeerGrows(s, t, c, held.inbox.value);
    }
  }

  lemma DrawTunKeeps(s: State, c: nat, payload: seq<byte>)
    requires Inv(s) && CanDrawTun(s, c, payload) && InBounds(DrawTun(s, c, payload))
    ensures Inv(DrawTun(s, c, payload))
  {
    hide PeersOk, IndexOk, DrawsOk, LogOk, ClientsOk, WritesOk, UdpOk, TunOk;
    var t := DrawTun(s, c, payload);
    assert HasLink(t, c) && LinkOf(t, c).sends < TWO_64;
    LinkDraws(s, t, c);
    LinkSends(s, t, c, LinkOf(t, c));
    ClientMoves(s, t, c);
  }

  lemma DrawPingKeeps(s: State, c: nat)
    requires Inv(s) && CanDrawPing(s, c) && InBounds(DrawPing(s, c))
    ensures Inv(DrawPing(s, c))
  {
    hide PeersOk, IndexOk, DrawsOk, LogOk, ClientsOk, WritesOk, UdpOk, TunOk;
    var t := DrawPing(s, c);
    assert HasLink(t, c) && LinkOf(t, c).sends < TWO_64;
    LinkAt(s, c);
    LinkDraws(s, t, c);
    LinkSends(s, t, c, LinkOf(t, c));
    ClientMoves(s, t, c);
  }

  /** Either send loop of a client draws the next number of the shared counter. */
  lemma LinkDraws(s: State, t: State, c: nat)
    requires Inv(s) && HasLink(s, c) && HasLink(t, c) && t == WithLink(s, c, LinkOf(t, c))
    requires LinkOf(t, c).sends == LinkOf(s, c).sends + 1 < TWO_64
    requires
      var a, b := LinkOf(s, c), LinkOf(t, c);
      || (a.tun.None? && b.tun.Some? && b.tun.value.sequence == b.sends && b.ping == a.ping)
      || (a.ping.None? && b.ping == Some(b.sends) && b.tun == a.tun)
    ensures DrawsOk(t) && PendingApart(t)
  {
    hide PeersOk, IndexOk, DrawsOk, LogOk, ClientsOk, WritesOk, UdpOk, TunOk;
    OthersSame(s, t, c);
    DrawsDraw(s, t, ByClient(c));
    if LinkOf(s, c).tun.Some? {
      PendingAt(s, ByClient(c), LinkOf(s, c).tun.value.sequence);
    }
    if LinkOf(s, c).ping.Some? {
      PendingAt(s, ByClient(c), LinkOf(s, c).ping.value);
    }
  }

  lemma LinkSealDraws(s: State, t: State, c: nat, sealed: Sealed, o: Origin)
    requires DrawsOk(s) && PendingApart(s) && HasLink(s, c) && o.owner == ByClient(c) && Pending(s, o.owner, o.sequence)
    requires HasLink(t, c) && t == WithLink(Append(s, sealed, o), c, LinkOf(t, c))
    requires LinkOf(t, c) == LinkOf(s, c).(tun := LinkOf(t, c).tun, ping := LinkOf(t, c).ping)
    requires
      var a, b := LinkOf(s, c), LinkOf(t, c);
      || (b.tun.None? && b.ping == a.ping && a.tun.Some? && a.tun.value.sequence == o.sequence)
      || (b.ping.None? && b.tun == a.tun && a.ping == Some(o.sequence))
    ensures DrawsOk(t) && PendingApart(t)
  {
    hide DrawsOk;
    OthersSame(s, t, c);
    assert LoopsApart(s.clients[c].phase);
    PendingAt(s, o.owner, o.sequence);
    DrawsSeal(s, t, o);
  }

  /** Either send loop of a client seals the number it holds. */
  lemma LinkSeals(s: State, t: State, c: nat, sealed: Sealed, o: Origin)
    requires Inv(s) && HasLink(s, c) && o.owner == ByClient(c) && Pending(s, o.owner, o.sequence)
    requires HasLink(t, c) && t == WithLink(Append(s, sealed, o), c, LinkOf(t, c))
    requires LinkOf(t, c) == LinkOf(s, c).(tun := LinkOf(t, c).tun, ping := LinkOf(t, c).ping)
    requires
      var a, b := LinkOf(s, c), LinkOf(t, c);
      || (b.tun.None? && b.ping == a.ping && a.tun.Some? && a.tun.value.sequence == o.sequence)
      || (b.ping.None? && b.tun == a.tun && a.ping == Some(o.sequence))
    requires RecordFits(t, sealed, o)
    ensures Inv(t)
  {
    hide PeersOk, IndexOk, DrawsOk, LogOk, ClientsOk, WritesOk, UdpOk, TunOk, LinkOk, Pending, RecordFits;
    LinkAt(s, c);
    SealGrows(s, t, c, sealed, o);
    hide Grows;
    PeersKeep(s, t);
    IndexKeeps(s, t);
    LinkSealDraws(s, t, c, sealed, o);
    LogAppends(s, t, sealed, o);
    SealedLinkOk(s, t, c);
    ClientChanges(s, t, c);
    UdpKeeps(s, t);
    TunKeeps(s, t);
    WritesKeep(s, t);
  }

  lemma SealGrows(s: State, t: State, c: nat, sealed: Sealed, o: Origin)
    requires HasLink(s, c) && HasLink(t, c) && t == WithLink(Append(s, sealed, o), c, LinkOf(t, c))
    requires LinkOf(t, c) == LinkOf(s, c).(tun := LinkOf(t, c).tun, ping := LinkOf(t, c).ping)
    ensures Grows(s, t)
  {
  }

  lemma SealedLinkOk(s: State, t: State, c: nat)
    requires Grows(s, t) && HasLink(s, c) && LinkOk(s, c) && HasLink(t, c) && t.clients[c].random == s.clients[c].random
    requires LinkOf(t, c) == LinkOf(s, c).(tun := LinkOf(t, c).tun, ping := LinkOf(t, c).ping)
    requires LinkOf(t, c).tun.None? || LinkOf(t, c).tun == LinkOf(s, c).tun
    ensures LinkOk(t, c)
  {
    var link := LinkOf(s, c);
    SameSessionGrows(s, t, c, link.peerID - 1);
    assert PeerGrows(s.peers[link.peerID - 1], t.peers[link.peerID - 1]);
    forall i | 0 <= i < |link.delivered| ensures FromPeer(t, c, link.delivered[i]) {
      FromPeerGrows(s, t, c, link.delivered[i]);
    }
    if link.inbox.Some? {
      FromPeerGrows(s, t, c, link.inbox.value);
    }
  }

  lemma SendTunKeeps(s: State, c: nat, ciphertext: seq<byte>)
    requires Inv(s) && CanSendTun(s, c, ciphertext)
    ensures Inv(SendTun(s, c, ciphertext))
  {
    hide PeersOk, IndexOk, DrawsOk, LogOk, ClientsOk, WritesOk, UdpOk, TunOk;
    var link := LinkOf(s, c);
    LinkAt(s, c);
    var draw := link.tun.value;
    PacketLayout(link.key, ClientToServer, DATA, link.peerID, draw.sequence, draw.payload, ciphertext);
    var sealed := EncodePacket(link.key, ClientToServer, MessageOf(DATA, link.peerID, draw.sequence, draw.payload),
      ciphertext).value;
    LinkSeals(s, SendTun(s, c, ciphertext), c, sealed, Origin(ByClient(c), draw.sequence, DATA));
  }

  lemma SendPingKeeps(s: State, c: nat, ciphertext: seq<byte>)
    requires Inv(s) && CanSendPing(s, c, ciphertext)
    ensures Inv(SendPing(s, c, ciphertext))
  {
    hide PeersOk, IndexOk, DrawsOk, LogOk, ClientsOk, WritesOk, UdpOk, TunOk;
    var link := LinkOf(s, c);
    LinkAt(s, c);
    PacketLayout(link.key, ClientToServer, KEEPALIVE, link.peerID, link.ping.value, [], ciphertext);
    var sealed := EncodePacket(link.key, ClientToServer, MessageOf(KEEPALIVE, link.peerID, link.ping.value, []),
      ciphertext).value;
    LinkSeals(s, SendPing(s, c, ciphertext), c, sealed, Origin(ByClient(c), link.ping.value, KEEPALIVE));
  }

  /** A DATA packet that opens under a client's key is what that client's peer sealed. */
  lemma ReceivedIsGenuine(s: State, c: nat, packet: seq<byte>)
    requires LogOk(s) && DrawsOk(s) && ClientsOk(s) && PeersOk(s) && HasLink(s, c)
    requires DecodePacket(s.log, LinkOf(s, c).key, ServerToClient, packet).Ok?
    ensures PacketSource(s.log, LinkOf(s, c).key, ServerToClient, packet).Some?
    ensures
      var key := LinkOf(s, c).key;
      var m := DecodePacket(s.log, key, ServerToClient, packet).value;
      FromPeer(s, c, Delivery(m.header.sequence, m.payload, PacketSource(s.log, key, ServerToClient, packet).value))
  {
    var link := LinkOf(s, c);
    DecodedWasSealed(s.log, link.key, ServerToClient, packet);
    var m := DecodePacket(s.log, link.key, ServerToClient, packet).value;
    var i := PacketSource(s.log, link.key, ServerToClient, packet).value;
    var o := s.origins[i];
    assert RecordFits(s, s.log[i], o);
    LinkAt(s, c);
    LinkKeyIsPeerKey(s, c);
    NonceInjective(ServerToClient, m.header.sequence, ClientToServer, o.sequence);
    NonceInjective(ServerToClient, m.header.sequence, ServerToClient, o.sequence);
    var r := o.owner.peer;
    PeerAt(s, r);
    var p := s.peers[r];
    KeyKindsDisjoint(link.peerID, s.clients[c].random, link.serverRandom, p.clientRandom, p.serverRandom.value,
      p.clientRandom);
    PeerKeyInjective(link.peerID, s.clients[c].random, link.serverRandom, p.id, p.clientRandom, p.serverRandom.value);
  }

  lemma PeerHasDrawn(s: State, c: nat, d: Delivery)
    requires DrawsOk(s) && FromPeer(s, c, d) && LinkOf(s, c).peerID <= |s.peers|
    ensures d.sequence <= s.peers[LinkOf(s, c).peerID - 1].sends
  {
  }

  /** Only the receiving side of a link changes: no number is drawn or sealed. */
  lemma ReceiverMoves(s: State, t: State, c: nat, link: Link)
    requires Inv(s) && HasLink(s, c) && t == WithLink(s, c, link) && LinkOk(t, c)
    requires link == LinkOf(s, c).(window := link.window, accepted := link.accepted, inbox := link.inbox,
             delivered := link.delivered)
    ensures Inv(t)
  {
    hide PeersOk, IndexOk, DrawsOk, LogOk, ClientsOk, WritesOk, UdpOk, TunOk;
    OthersSame(s, t, c);
    assert forall o :: Count(t, o) == Count(s, o);
    DrawsKeep(s, t);
    ClientMoves(s, t, c);
  }

  lemma ReceiveKeeps(s: State, c: nat, packet: seq<byte>)
    requires Inv(s) && CanReceive(s, c, packet)
    ensures Inv(Receive(s, c, packet))
  {
    hide PeersOk, IndexOk, DrawsOk, LogOk, ClientsOk, WritesOk, UdpOk, TunOk;
    var t := Receive(s, c, packet);
    var link, next := LinkOf(s, c), LinkOf(t, c);
    LinkAt(s, c);
    assert Grows(s, t);
    SameSessionGrows(s, t, c, link.peerID - 1);
    forall i | 0 <= i < |link.delivered| ensures FromPeer(t, c, link.delivered[i]) {
      FromPeerGrows(s, t, c, link.delivered[i]);
    }
    if DecodePacket(s.log, link.key, ServerToClient, packet).Ok? {
      var m := DecodePacket(s.log, link.key, ServerToClient, packet).value;
      ReceivedIsGenuine(s, c, packet);
      AdvanceRefines(link.window, link.accepted, m.header.sequence);
      PeerHasDrawn(s, c, Delivery(m.header.sequence, m.payload,
        PacketSource(s.log, link.key, ServerToClient, packet).value));
      if next.inbox.Some? {
        FromPeerGrows(s, t, c, next.inbox.value);
      }
    }
    assert LinkOk(t, c);
    ReceiverMoves(s, t, c, next);
  }

  lemma DeliverLinkKeeps(s: State, c: nat)
    requires Inv(s) && CanDeliverLink(s, c)
    ensures Inv(DeliverLink(s, c))
  {
    hide PeersOk, IndexOk, DrawsOk, LogOk, ClientsOk, WritesOk, UdpOk, TunOk;
    var t := DeliverLink(s, c);
    var link, next := LinkOf(s, c), LinkOf(t, c);
    LinkAt(s, c);
    assert Grows(s, t);
    SameSessionGrows(s, t, c, link.peerID - 1);
    forall i | 0 <= i < |next.delivered| ensures FromPeer(t, c, next.delivered[i]) {
      FromPeerGrows(s, t, c, next.delivered[i]);
    }
    assert LinkOk(t, c);
    ReceiverMoves(s, t, c, next);
  }
}
