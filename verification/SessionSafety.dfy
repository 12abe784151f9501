/** Whole-run safety of the tunnel session protocol. */
module SessionSafety {
  import opened Bytes
  import opened Codec
  import opened Aead
  import opened PacketCodec
  import opened PeerIndex
  import opened Addressing
  import opened Ipv4
  import opened ReplayWindow
  import opened Session
  import opened SessionInvariants
  import opened SessionSteps

  /** The schedule leads to s, with fewer than 2^64 registrations and sends. */
  ghost predicate Reaches(network: Network, steps: seq<Step>, s: State)
  {
    Normalized(network) && Execute(network, steps) == Some(s) && InBounds(s)
  }

  // ---- The invariant holds in every run ----

  lemma InitKeeps(network: Network)
    requires Normalized(network)
    ensures Inv(Init(network))
  {
    var s := Init(network);
    assert Infos(s) == map[];
    assert forall o, q: uint64 :: !Pending(s, o, q);
  }

  /** Counters and registrations only go up. */
  lemma BoundsShrink(s: State, step: Step)
    requires Enabled(s, step) && InBounds(Apply(s, step))
    ensures InBounds(s)
  {
    hide InBounds;
    var t := Apply(s, step);
    assert Rises(s, t) by {
      if OfClient(step) {
        ClientRises(s, step);
      } else {
        ServerRises(s, step);
      }
    }
    BoundsFollow(s, t);
  }

  predicate OfClient(step: Step)
  {
    step.StepFinishHandshake? || step.StepDrawTun? || step.StepSendTun? || step.StepDrawPing? || step.StepSendPing?
    || step.StepReceive? || step.StepDeliverLink?
  }

  ghost predicate Rises(s: State, t: State)
  {
    && |s.peers| <= |t.peers| && (forall r :: 0 <= r < |s.peers| ==> s.peers[r].sends <= t.peers[r].sends)
    && |s.clients| <= |t.clients|
    && (forall c :: 0 <= c < |s.clients| && s.clients[c].phase.Established? ==>
          t.clients[c].phase.Established? && s.clients[c].phase.link.sends <= t.clients[c].phase.link.sends)
  }

  lemma BoundsFollow(s: State, t: State)
    requires Rises(s, t) && InBounds(t)
    ensures InBounds(s)
  {
    forall c | HasLink(s, c) ensures LinkOf(s, c).sends < TWO_64 {
      assert HasLink(t, c);
    }
  }

  lemma ServerRises(s: State, step: Step)
    requires Enabled(s, step) && !OfClient(step)
    ensures Rises(s, Apply(s, step))
  {
    hide DecodeAloha, DecodePacket, Advance, Allocate, EncodeHandshake, EncodePacket, ExtractDst, PeekHeader;
  }

  lemma ClientRises(s: State, step: Step)
    requires Enabled(s, step) && OfClient(step)
    ensures Rises(s, Apply(s, step))
  {
    hide DecodeWelcome, DecodePacket, Advance, EncodePacket;
  }

  lemma StepKeeps(s: State, step: Step)
    requires Inv(s) && Enabled(s, step) && InBounds(Apply(s, step))
    ensures Inv(Apply(s, step))
  {
    hide Inv, InBounds;
    match step
    case StepUdpReceive(packet, from) => UdpReceiveKeeps(s, packet, from);
    case StepAcceptHello => AcceptHelloKeeps(s);
    case StepSetCipher(serverRandom) => SetCipherKeeps(s, serverRandom);
    case StepRoutePeer => RoutePeerKeeps(s);
    case StepDrawWelcome => DrawWelcomeKeeps(s);
    case StepSendWelcome(ciphertext) => SendWelcomeKeeps(s, ciphertext);
    case StepOpenFound => OpenFoundKeeps(s);
    case StepLookupAgain => LookupAgainKeeps(s);
    case StepAcceptMessage => AcceptMessageKeeps(s);
    case StepDeliver => DeliverKeeps(s);
    case StepTouch => TouchKeeps(s);
    case StepUdpFail => UdpMoves(s, s.(udp := UdpDown));
    case StepReadTun(packet) => ReadTunKeeps(s, packet);
    case StepDrawData => DrawDataKeeps(s);
    case StepSendData(ciphertext) => SendDataKeeps(s, ciphertext);
    case StepTunFail => TunMoves(s, s.(tun := TunDown));
    case StepExpire(now) => ExpireKeeps(s, now);
    case StepTick(clock) => TickKeeps(s, clock);
    case StepHello(random, ciphertext) => HelloKeeps(s, random, ciphertext);
    case StepFinishHandshake(c, packet) => FinishHandshakeKeeps(s, c, packet);
    case StepDrawTun(c, packet) => DrawTunKeeps(s, c, packet);
    case StepSendTun(c, ciphertext) => SendTunKeeps(s, c, ciphertext);
    case StepDrawPing(c) => DrawPingKeeps(s, c);
    case StepSendPing(c, ciphertext) => SendPingKeeps(s, c, ciphertext);
    case StepReceive(c, packet) => ReceiveKeeps(s, c, packet);
    case StepDeliverLink(c) => DeliverLinkKeeps(s, c);
  }

  lemma {:induction false} RunKeeps(network: Network, steps: seq<Step>, s: State)
    requires Reaches(network, steps, s)
    ensures Inv(s)
  {
    hide Inv, InBounds, Apply, Enabled;
    if steps == [] {
      InitKeeps(network);
    } else {
      var prefix, step := steps[..|steps| - 1], steps[|steps| - 1];
      var before := Execute(network, prefix).value;
      BoundsShrink(before, step);
      RunKeeps(network, prefix, before);
      StepKeeps(before, step);
    }
  }

  // ---- Nonces ----

  /** No two Seal calls of a run share a key and nonce, under any interleaving of the client's two send
      loops, the server's DATA and WELCOME, and re-registrations after expiry. */
  lemma NoncesNeverRepeat(network: Network, steps: seq<Step>, s: State)
    requires Reaches(network, steps, s)
    ensures NonceUnique(s.log)
  {
    RunKeeps(network, steps, s);
    forall i, j | 0 <= i < j < |s.log| ensures !(s.log[i].key == s.log[j].key && s.log[i].nonce == s.log[j].nonce) {
      if s.log[i].key == s.log[j].key && s.log[i].nonce == s.log[j].nonce {
        SameNonceSameDraw(s, i, j);
      }
    }
  }

  /** A key and nonce name one owner and one number of its counter. */
  lemma SameNonceSameDraw(s: State, i: nat, j: nat)
    requires PeersOk(s) && ClientsOk(s) && LogOk(s) && i < |s.log| && j < |s.log|
    requires s.log[i].key == s.log[j].key && s.log[i].nonce == s.log[j].nonce
    ensures s.origins[i].owner == s.origins[j].owner && s.origins[i].sequence == s.origins[j].sequence
  {
    hide PeersOk, ClientsOk;
    var a, b := s.origins[i], s.origins[j];
    assert RecordFits(s, s.log[i], a) && RecordFits(s, s.log[j], b);
    NonceInjective(ClientToServer, a.sequence, ClientToServer, b.sequence);
    NonceInjective(ClientToServer, a.sequence, ServerToClient, b.sequence);
    NonceInjective(ServerToClient, a.sequence, ClientToServer, b.sequence);
    NonceInjective(ServerToClient, a.sequence, ServerToClient, b.sequence);
    if a.owner.ByClient? {
      SameClientKey(s, a, b, s.log[i], s.log[j]);
    } else {
      SamePeerKey(s, a, b, s.log[i], s.log[j]);
    }
  }

  lemma SameClientKey(s: State, a: Origin, b: Origin, x: Sealed, y: Sealed)
    requires PeersOk(s) && ClientsOk(s) && RecordFits(s, x, a) && RecordFits(s, y, b)
    requires a.owner.ByClient? && b.owner.ByClient? && x.key == y.key
    ensures a.owner == b.owner
  {
    hide PeersOk;
    var c, d := a.owner.client, b.owner.client;
    var random, other := s.clients[c].random, s.clients[d].random;
    ClientKeyKinds(s, x, a, other);
    ClientKeyKinds(s, y, b, random);
    if a.kind != ALOHA && b.kind != ALOHA {
      LinkKeyIsPeerKey(s, c);
      LinkKeyIsPeerKey(s, d);
      PeerKeyInjective(LinkOf(s, c).peerID, random, LinkOf(s, c).serverRandom, LinkOf(s, d).peerID, other,
        LinkOf(s, d).serverRandom);
    }
  }

  lemma SamePeerKey(s: State, a: Origin, b: Origin, x: Sealed, y: Sealed)
    requires PeersOk(s) && RecordFits(s, x, a) && RecordFits(s, y, b)
    requires a.owner.ByPeer? && b.owner.ByPeer? && x.key == y.key
    ensures a.owner == b.owner
  {
    var r, q := a.owner.peer, b.owner.peer;
    PeerAt(s, r); PeerAt(s, q);
    var c, d := s.peers[r].clientRandom, s.peers[q].clientRandom;
    var e, f := s.peers[r].serverRandom.value, s.peers[q].serverRandom.value;
    KeyKindsDisjoint(s.peers[r].id, c, e, d, f, c);
    KeyKindsDisjoint(s.peers[q].id, d, f, c, e, c);
    PeerKeyInjective(s.peers[r].id, c, e, s.peers[q].id, d, f);
    WelcomeKeyInjective(c, e, d, f);
  }

  // ---- Sessions ----

  /** The log entry at i is this owner's Seal call for this number and type. */
  ghost predicate SealedAt(s: State, i: nat, o: Origin)
  {
    i < |s.log| && i < |s.origins| && s.origins[i] == o
  }

  /** A finished handshake: the server registered exactly one peer with that id; it was registered for this
      client's own ALOHA and agrees on randoms, key, tunnel IP and MTU. No other client agrees with it. */
  lemma HandshakeAgreement(network: Network, steps: seq<Step>, s: State, c: nat)
    requires Reaches(network, steps, s) && HasLink(s, c)
    ensures exists r: nat :: SameSession(s, c, r) && SealedAt(s, s.peers[r].hello, Origin(ByClient(c), 1, ALOHA))
    ensures forall r: nat :: r < |s.peers| && s.peers[r].id == LinkOf(s, c).peerID ==> SameSession(s, c, r)
    ensures forall r: nat, q: nat :: SameSession(s, c, r) && SameSession(s, c, q) ==> r == q
    ensures forall r: nat, d: nat :: SameSession(s, c, r) && SameSession(s, d, r) ==> c == d
  {
    hide IndexOk, DrawsOk, WritesOk, UdpOk, TunOk;
    RunKeeps(network, steps, s);
    LinkAt(s, c);
    var mine := LinkOf(s, c).peerID - 1;
    forall r: nat | r < |s.peers| ensures s.peers[r].id == r + 1 { PeerAt(s, r); }
    GreetingOf(s, c, mine);
    forall r: nat, q: nat | SameSession(s, c, r) && SameSession(s, c, q) ensures r == q {
      assert s.peers[r].id == r + 1 && s.peers[q].id == q + 1;
    }
    forall r: nat, d: nat | SameSession(s, c, r) && SameSession(s, d, r) ensures c == d {
      assert s.clients[c].random == s.clients[d].random;
    }
  }

  /** The ALOHA a peer was registered for was sealed by the client whose random it carries. */
  lemma GreetingOf(s: State, c: nat, r: nat)
    requires PeersOk(s) && ClientsOk(s) && LogOk(s) && SameSession(s, c, r)
    ensures SealedAt(s, s.peers[r].hello, Origin(ByClient(c), 1, ALOHA))
  {
    PeerAt(s, r);
    var i := s.peers[r].hello;
    assert RecordFits(s, s.log[i], s.origins[i]);
  }

  /** Every peer the server ever registered answers an ALOHA that a client really sealed. */
  lemma NoPeerWithoutClient(network: Network, steps: seq<Step>, s: State, r: nat)
    requires Reaches(network, steps, s) && r < |s.peers|
    ensures exists c :: 0 <= c < |s.clients| && s.clients[c].random == s.peers[r].clientRandom
  {
    hide PeersOk, IndexOk, DrawsOk, LogOk, ClientsOk, WritesOk, UdpOk, TunOk;
    RunKeeps(network, steps, s);
    PeerAt(s, r);
    assert s.clients[s.origins[s.peers[r].hello].owner.client].random == s.peers[r].clientRandom;
  }

  // ---- Delivery ----

  /** Client to server: the server's TUN writes map injectively to DATA Seal calls, each made by the one
      client that shares the peer's session, with the same payload. */
  lemma ServerDeliversAtMostOnce(network: Network, steps: seq<Step>, s: State)
    requires Reaches(network, steps, s)
    ensures forall i :: 0 <= i < |s.writes| ==>
              FromClient(s, s.writes[i].peer, DATA, s.writes[i].sequence, s.writes[i].payload, s.writes[i].source)
    ensures forall i, j :: 0 <= i < j < |s.writes| ==> s.writes[i].source != s.writes[j].source
  {
    hide PeersOk, IndexOk, DrawsOk, LogOk, ClientsOk, UdpOk, TunOk;
    RunKeeps(network, steps, s);
    forall i, j | 0 <= i < j < |s.writes| ensures s.writes[i].source != s.writes[j].source {
      if s.writes[i].source == s.writes[j].source {
        var c := s.origins[s.writes[i].source].owner.client;
        assert SameSession(s, c, s.writes[i].peer) && SameSession(s, c, s.writes[j].peer);
        PeerAt(s, s.writes[i].peer);
        PeerAt(s, s.writes[j].peer);
      }
    }
  }

  /** Server to client: the same for every client. */
  lemma ClientDeliversAtMostOnce(network: Network, steps: seq<Step>, s: State, c: nat)
    requires Reaches(network, steps, s) && HasLink(s, c)
    ensures forall i :: 0 <= i < |LinkOf(s, c).delivered| ==>
              var d := LinkOf(s, c).delivered[i];
              && d.source < |s.log| && d.source < |s.origins| && s.log[d.source].plain == d.payload
              && s.origins[d.source].owner.ByPeer? && s.origins[d.source].kind == DATA
                 && s.origins[d.source].sequence == d.sequence
              && SameSession(s, c, s.origins[d.source].owner.peer)
    ensures forall i, j :: 0 <= i < j < |LinkOf(s, c).delivered| ==>
              LinkOf(s, c).delivered[i].source != LinkOf(s, c).delivered[j].source
  {
    hide PeersOk, IndexOk, DrawsOk, LogOk, ClientsOk, WritesOk, UdpOk, TunOk;
    RunKeeps(network, steps, s);
    LinkAt(s, c);
    var link := LinkOf(s, c);
    forall i | 0 <= i < |link.delivered| ensures FromPeer(s, c, link.delivered[i]) {
    }
  }

  // ---- Indexes, addresses and routing ----

  /** The three maps describe the same live peers, ids lie below nextID, and lookups are scans of byID. */
  lemma IndexesAgree(network: Network, steps: seq<Step>, s: State, r: nat, random: Random, ip: TunnelIP)
    requires Reaches(network, steps, s)
    ensures Agrees(s.index, Infos(s)) && s.index.nextID == |s.peers| + 1
    ensures random in s.index.byClientRandom && s.index.byClientRandom[random] == r
            <==> IsLive(s.index, Infos(s), r) && s.peers[r].clientRandom == random
    ensures ip in s.index.byTunnelIP && s.index.byTunnelIP[ip] == r
            <==> ip.V4? && IsLive(s.index, Infos(s), r) && s.peers[r].tunnelIP == ip
  {
    hide PeersOk, DrawsOk, LogOk, ClientsOk, WritesOk, UdpOk, TunOk;
    RunKeeps(network, steps, s);
    LookupIsScan(s.index, Infos(s), r, random, if ip.V4? then ip else V4(0));
  }

  /** Expiry removes exactly the peers not heard of for longer than the timeout. */
  lemma ExpiryIsExact(network: Network, steps: seq<Step>, s: State, now: int)
    requires Reaches(network, steps, s)
    ensures ExpirePeers(s, now).index == Restrict(s.index, Expired(s, now))
    ensures forall r: nat :: IsLive(s.index, Infos(s), r) ==>
              (IsLive(ExpirePeers(s, now).index, Infos(s), r) <==> now - s.peers[r].lastSeen <= PEER_TIMEOUT)
  {
    hide PeersOk, DrawsOk, LogOk, ClientsOk, WritesOk, UdpOk, TunOk, Agrees;
    RunKeeps(network, steps, s);
    RemoveIsRestrict(s.index, Infos(s), Expired(s, now));
  }

  /** A routable peer already has its cipher, so the server never drops a DATA packet for want of one:
      a number drawn for DATA is always sealed. */
  lemma RoutableImpliesKeyed(network: Network, steps: seq<Step>, s: State)
    requires Reaches(network, steps, s)
    ensures forall ip :: ip in s.index.byTunnelIP ==>
              s.index.byTunnelIP[ip] < |s.peers| && s.peers[s.index.byTunnelIP[ip]].cipher.Some?
    ensures s.tun.TunDrawn? ==> forall ciphertext :: CanSendData(s, ciphertext) ==>
              |SendData(s, ciphertext).log| == |s.log| + 1 && SendData(s, ciphertext).tun == TunReading
  {
    hide PeersOk, IndexOk, DrawsOk, LogOk, ClientsOk, WritesOk, UdpOk;
    RunKeeps(network, steps, s);
    forall ip | ip in s.index.byTunnelIP
      ensures s.index.byTunnelIP[ip] < |s.peers| && s.peers[s.index.byTunnelIP[ip]].cipher.Some?
    {
      RoutedTo(s, ip);
      PeerAt(s, s.index.byTunnelIP[ip]);
    }
    if s.tun.TunDrawn? {
      PeerAt(s, s.tun.peer);
    }
  }

  /** Every DATA packet the server seals holds an inner IPv4 packet with a complete header, and goes, under that peer's
      key, to the only peer whose tunnel IP is the destination field of that header. */
  lemma DataGoesToItsDestination(network: Network, steps: seq<Step>, s: State, i: nat)
    requires Reaches(network, steps, s) && i < |s.log| && i < |s.origins|
    requires s.origins[i].owner.ByPeer? && s.origins[i].kind == DATA
    ensures
      var packet := s.log[i].plain;
      && |packet| >= 20 && packet == Octets(HeaderOf(packet)) + packet[20..]
      && Whole(HeaderOf(packet), packet[20..])
      && forall r :: 0 <= r < |s.peers| ==>
           (s.peers[r].tunnelIP == V4(HeaderOf(packet).destination) <==> r == s.origins[i].owner.peer)
    ensures s.origins[i].owner.peer < |s.peers| && s.peers[s.origins[i].owner.peer].cipher == Some(s.log[i].key)
  {
    hide PeersOk, DrawsOk, ClientsOk, WritesOk, UdpOk, TunOk, Agrees;
    RunKeeps(network, steps, s);
    assert RecordFits(s, s.log[i], s.origins[i]);
    var q, ip := s.origins[i].owner.peer, ExtractDst(s.log[i].plain).addr;
    RoutedHeader(s.log[i].plain);
    PeerAt(s, q);
    forall r | 0 <= r < |s.peers| && s.peers[r].tunnelIP == V4(ip) ensures r == q {
      PeerAt(s, r);
      AllocateIsBijective(s.network, ip);
    }
  }

  lemma RoutedHeader(packet: seq<byte>)
    requires ExtractDst(packet).Dst?
    ensures |packet| >= 20 && packet == Octets(HeaderOf(packet)) + packet[20..]
    ensures Whole(HeaderOf(packet), packet[20..])
    ensures ExtractDst(packet) == Dst(HeaderOf(packet).destination)
  {
    hide Octets;
    EveryPacketHasHeader(packet);
    DestinationIsRead(HeaderOf(packet), packet[20..]);
  }

  /** setTunnelIP never meets a duplicate address, and only misses a peer that has expired meanwhile. */
  lemma TunnelIPNeverTaken(network: Network, steps: seq<Step>, s: State, ip: uint32)
    requires Reaches(network, steps, s) && s.udp.Keyed? && s.udp.peer < |s.peers|
    requires Allocate(s.network, s.peers[s.udp.peer].id) == Some(ip)
    ensures !SetTunnelIP(s.index, s.peers[s.udp.peer].id, V4(ip)).AlreadyExists?
    ensures SetTunnelIP(s.index, s.peers[s.udp.peer].id, V4(ip)).NotFound? <==> !IsLive(s.index, Infos(s), s.udp.peer)
    ensures SetTunnelIP(s.index, s.peers[s.udp.peer].id, V4(ip)).Set? ==>
              SetTunnelIP(s.index, s.peers[s.udp.peer].id, V4(ip)).peer == s.udp.peer
  {
    hide PeersOk, IndexOk, DrawsOk, LogOk, ClientsOk, WritesOk, TunOk, Agrees, Inv;
    RunKeeps(network, steps, s);
    KeyedIsUnset(s);
    AllocatedIsFree(s, s.udp.peer, ip);
    LiveAsItself(s, s.udp.peer);
  }

  lemma KeyedIsUnset(s: State)
    requires Inv(s) && s.udp.Keyed? && s.udp.peer < |s.peers|
    ensures PeersOk(s) && IndexOk(s) && s.peers[s.udp.peer].tunnelIP == Unset
  {
    hide PeersOk, IndexOk, DrawsOk, LogOk, ClientsOk, WritesOk, TunOk;
  }

  /** An id in byID leads to the peer that was registered with it. */
  lemma LiveAsItself(s: State, r: nat)
    requires PeersOk(s) && IndexOk(s) && r < |s.peers|
    ensures s.peers[r].id in s.index.byID <==> IsLive(s.index, Infos(s), r)
    ensures s.peers[r].id in s.index.byID ==> s.index.byID[s.peers[r].id] == r
  {
    hide PeersOk, IndexOk, Agrees;
    PeerAt(s, r);
    if s.peers[r].id in s.index.byID {
      LiveByID(s, s.peers[r].id);
    }
  }

  /** The peer whose cipher opened a packet and the peer the handler looks up again are the same. */
  lemma PeerIdentityIsStable(network: Network, steps: seq<Step>, s: State)
    requires Reaches(network, steps, s)
    ensures s.udp.Handling? ==> s.udp.peer == s.udp.opener
    ensures CanLookup(s) && LookupAgain(s).udp.Handling? ==> LookupAgain(s).udp.peer == s.udp.peer
  {
    hide PeersOk, IndexOk, DrawsOk, LogOk, ClientsOk, WritesOk, TunOk;
    RunKeeps(network, steps, s);
    if CanLookup(s) && LookupAgain(s).udp.Handling? {
      LiveByID(s, s.udp.message.header.peerID);
      PeerAt(s, s.udp.peer);
    }
  }

  /** The bounds in the enabling conditions never hold a loop up. */
  lemma LoopsNeverBlocked(network: Network, steps: seq<Step>, s: State)
    requires Reaches(network, steps, s)
    ensures s.udp.Registered? ==> CanAcceptHello(s)
    ensures s.udp.Keyed? ==> CanRoute(s)
    ensures s.udp.Routable? ==> CanDrawWelcome(s)
    ensures s.udp.Found? ==> CanOpen(s)
    ensures s.udp.Authenticated? ==> CanLookup(s)
    ensures s.udp.Handling? ==> CanAcceptMessage(s)
    ensures s.udp.Touching? ==> CanTouch(s)
    ensures s.tun.TunFound? ==> CanDrawData(s)
  {
    hide PeersOk, IndexOk, DrawsOk, LogOk, ClientsOk, WritesOk;
    RunKeeps(network, steps, s);
    forall id | id in s.index.byID ensures s.index.byID[id] < |s.peers| {
      LiveByID(s, id);
    }
  }
}
