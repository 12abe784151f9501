/** What every step of the session protocol keeps, group by group. */
module SessionInvariants {
  import opened Bytes
  import opened Codec
  import opened Aead
  import opened PacketCodec
  import opened PeerIndex
  import opened Addressing
  import opened ReplayWindow
  import opened Session

  /** Fewer than 2^64 registrations, and fewer than 2^64 sends in every session. */
  ghost predicate InBounds(s: State)
  {
    && |s.peers| + 1 < TWO_64
    && (forall r :: 0 <= r < |s.peers| ==> s.peers[r].sends < TWO_64)
    && (forall c :: HasLink(s, c) ==> LinkOf(s, c).sends < TWO_64)
  }

  // ---- Peers and indexes ----

  ghost predicate PeerOk(s: State, r: nat)
    requires r < |s.peers|
  {
    var p := s.peers[r];
    && p.id == r + 1
    && Refines(p.window, p.accepted)
    && p.cipher == (if p.serverRandom.None? then None else Some(PeerKey(p.id, p.clientRandom, p.serverRandom.value)))
    && (p.tunnelIP.V4? ==> p.serverRandom.Some? && Allocate(s.network, p.id) == Some(p.tunnelIP.addr))
    && GreetedBy(s, p)
  }

  /** The peer was registered for an ALOHA that one of the clients sealed, and has accepted
      no number that this client did not draw. */
  ghost predicate GreetedBy(s: State, p: Peer)
  {
    && p.hello < |s.origins| && s.origins[p.hello].kind == ALOHA && s.origins[p.hello].owner.ByClient?
    && s.origins[p.hello].owner.client < |s.clients|
    && s.clients[s.origins[p.hello].owner.client].random == p.clientRandom
    && forall x :: x in p.accepted ==> x <= Count(s, s.origins[p.hello].owner)
  }

  ghost predicate PeersOk(s: State)
  {
    && (forall r :: 0 <= r < |s.peers| ==> PeerOk(s, r))
    && (forall r, q :: 0 <= r < q < |s.peers| && s.peers[r].serverRandom.Some? ==>
          s.peers[r].serverRandom != s.peers[q].serverRandom)
  }

  ghost predicate IndexOk(s: State)
  {
    Normalized(s.network) && Agrees(s.index, Infos(s)) && s.index.nextID == |s.peers| + 1
  }

  // ---- Sequence numbers drawn, sealed and pending ----

  /** How many numbers an owner's counter has handed out. */
  function Count(s: State, o: Owner): nat
  {
    match o
    case ByPeer(r) => if r < |s.peers| then s.peers[r].sends else 0
    case ByClient(c) =>
      if c >= |s.clients| then 0
      else if s.clients[c].phase.Established? then s.clients[c].phase.link.sends
      else 1
  }

  /** Drawn by a loop that has not sealed it yet. */
  ghost predicate Pending(s: State, o: Owner, sequence: uint64)
  {
    || (s.udp.WelcomeDrawn? && o == ByPeer(s.udp.peer) && sequence == s.udp.sequence)
    || (s.tun.TunDrawn? && o == ByPeer(s.tun.peer) && sequence == s.tun.sequence)
    || (o.ByClient? && HasLink(s, o.client) && LinkOf(s, o.client).tun.Some?
       && LinkOf(s, o.client).tun.value.sequence == sequence)
    || (o.ByClient? && HasLink(s, o.client) && LinkOf(s, o.client).ping == Some(sequence))
  }

  ghost predicate Unused(s: State, o: Owner, sequence: uint64)
  {
    forall i :: 0 <= i < |s.origins| ==> !(s.origins[i].owner == o && s.origins[i].sequence == sequence)
  }

  ghost predicate DrawsOk(s: State)
  {
    && |s.origins| == |s.log|
    && (forall i :: 0 <= i < |s.origins| ==> 1 <= s.origins[i].sequence <= Count(s, s.origins[i].owner))
    && (forall i, j :: 0 <= i < j < |s.origins| && s.origins[i].owner == s.origins[j].owner ==>
          s.origins[i].sequence != s.origins[j].sequence)
    && (forall o, q: uint64 :: Pending(s, o, q) ==> 1 <= q <= Count(s, o) && Unused(s, o, q))
  }

  /** Two loops on one counter never hold the same number. */
  ghost predicate PendingApart(s: State)
  {
    && (s.udp.WelcomeDrawn? && s.tun.TunDrawn? && s.udp.peer == s.tun.peer ==> s.udp.sequence != s.tun.sequence)
    && (forall c :: 0 <= c < |s.clients| ==> LoopsApart(s.clients[c].phase))
  }

  ghost predicate LoopsApart(phase: Phase)
  {
    phase.Established? && phase.link.tun.Some? ==> Some(phase.link.tun.value.sequence) != phase.link.ping
  }

  // ---- Sealed records ----

  /** The key, nonce and contents of a record are those its owner's protocol role prescribes. */
  ghost predicate RecordFits(s: State, sealed: Sealed, o: Origin)
  {
    match o.owner
    case ByClient(c) =>
      && c < |s.clients|
      && sealed.nonce == Nonce(ClientToServer, o.sequence)
      && (o.kind == ALOHA || o.kind == DATA || o.kind == KEEPALIVE)
      && (o.kind == ALOHA ==> o.sequence == 1 && sealed.key == AlohaKey(s.clients[c].random))
      && (o.kind != ALOHA ==>
            HasLink(s, c) && sealed.key == LinkOf(s, c).key
            && sealed.aad == HeaderBytes(Header(PROTOCOL_VERSION, o.kind, 0, 0, LinkOf(s, c).peerID, o.sequence)))
    case ByPeer(r) =>
      && r < |s.peers| && s.peers[r].serverRandom.Some? && s.peers[r].tunnelIP.V4?
      && sealed.nonce == Nonce(ServerToClient, o.sequence)
      && (o.kind == WELCOME || o.kind == DATA)
      && (o.kind == WELCOME ==>
            && sealed.key == WelcomeKey(s.peers[r].clientRandom, s.peers[r].serverRandom.value)
            && sealed.aad == HeaderBytes(Header(PROTOCOL_VERSION, WELCOME, 0, 0, s.peers[r].id, o.sequence))
               + s.peers[r].serverRandom.value
            && sealed.plain == WelcomePayload(s.peers[r].tunnelIP.addr, MTU))
      && (o.kind == DATA ==>
            && sealed.key == PeerKey(s.peers[r].id, s.peers[r].clientRandom, s.peers[r].serverRandom.value)
            && sealed.aad == HeaderBytes(Header(PROTOCOL_VERSION, DATA, 0, 0, s.peers[r].id, o.sequence))
            && ExtractDst(sealed.plain) == Dst(s.peers[r].tunnelIP.addr))
  }

  ghost predicate LogOk(s: State)
  {
    && |s.origins| == |s.log|
    && forall i :: 0 <= i < |s.log| ==> RecordFits(s, s.log[i], s.origins[i])
  }

  // ---- Sessions ----

  /** Client c and peer r hold the two ends of one session. */
  ghost predicate SameSession(s: State, c: nat, r: nat)
  {
    && HasLink(s, c) && r < |s.peers|
    && var link, p := LinkOf(s, c), s.peers[r];
    && link.peerID == p.id && s.clients[c].random == p.clientRandom && p.serverRandom == Some(link.serverRandom)
    && p.cipher == Some(link.key) && p.tunnelIP == V4(link.tunnelIP) && link.mtu == MTU
  }

  /** The Seal call at source is peer r's client sending exactly this message. */
  ghost predicate FromClient(s: State, r: nat, kind: byte, sequence: uint64, payload: seq<byte>, source: nat)
  {
    && source < |s.log| && source < |s.origins| && s.origins[source].owner.ByClient?
    && SameSession(s, s.origins[source].owner.client, r)
    && s.origins[source].sequence == sequence && s.origins[source].kind == kind
    && s.log[source].plain == payload
  }

  /** The Seal call at source is client c's peer sending exactly this payload. */
  ghost predicate FromPeer(s: State, c: nat, d: Delivery)
  {
    && HasLink(s, c) && LinkOf(s, c).peerID >= 1
    && d.source < |s.log| && d.source < |s.origins|
    && s.origins[d.source] == Origin(ByPeer(LinkOf(s, c).peerID - 1), d.sequence, DATA)
    && s.log[d.source].plain == d.payload
  }

  ghost predicate LinkOk(s: State, c: nat)
    requires HasLink(s, c)
  {
    var link := LinkOf(s, c);
    && link.peerID >= 1 && SameSession(s, c, link.peerID - 1)
    && link.sends >= 1
    && (link.tun.Some? ==> 0 < |link.tun.value.payload| <= MAX_PAYLOAD)
    && Refines(link.window, link.accepted)
    && (forall x :: x in link.accepted ==> x <= s.peers[link.peerID - 1].sends)
    && (forall i :: 0 <= i < |link.delivered| ==>
          FromPeer(s, c, link.delivered[i]) && link.delivered[i].sequence in link.accepted)
    && (forall i, j :: 0 <= i < j < |link.delivered| ==> link.delivered[i].sequence != link.delivered[j].sequence)
    && (link.inbox.Some? ==>
          && FromPeer(s, c, link.inbox.value) && link.inbox.value.sequence in link.accepted
          && forall i :: 0 <= i < |link.delivered| ==> link.delivered[i].sequence != link.inbox.value.sequence)
  }

  ghost predicate ClientsOk(s: State)
  {
    && (forall c, d :: 0 <= c < d < |s.clients| ==> s.clients[c].random != s.clients[d].random)
    && (forall c :: HasLink(s, c) ==> LinkOk(s, c))
  }

  // ---- The server's loops ----

  ghost predicate Unkeyed(s: State, r: nat, random: Random)
  {
    r < |s.peers| && s.peers[r].clientRandom == random && s.peers[r].serverRandom.None? && s.peers[r].tunnelIP == Unset
  }

  ghost predicate Holding(s: State, r: nat, random: Random, serverRandom: Random, ip: TunnelIP)
  {
    r < |s.peers| && s.peers[r].clientRandom == random && s.peers[r].serverRandom == Some(serverRandom)
      && s.peers[r].tunnelIP == ip
  }

  ghost predicate Unwritten(s: State, r: nat, sequence: uint64)
  {
    forall i :: 0 <= i < |s.writes| ==> !(s.writes[i].peer == r && s.writes[i].sequence == sequence)
  }

  ghost predicate Genuine(s: State, r: nat, m: Message, source: nat)
  {
    && FromClient(s, r, m.header.kind, m.header.sequence, m.payload, source)
    && m.header.peerID == s.peers[r].id && (m.header.kind == DATA || m.header.kind == KEEPALIVE)
  }

  ghost predicate UdpOk(s: State)
  {
    match s.udp
    case Reading => true
    case UdpDown => true
    case Registered(r, random, sequence) => Unkeyed(s, r, random) && sequence == 1
    case HelloAccepted(r, random) => Unkeyed(s, r, random)
    case Keyed(r, random, serverRandom) => Holding(s, r, random, serverRandom, Unset)
    case Routable(r, random, serverRandom, ip) => Holding(s, r, random, serverRandom, V4(ip))
    case WelcomeDrawn(r, random, serverRandom, ip, _) => Holding(s, r, random, serverRandom, V4(ip))
    case Found(r, packet, _) => r < |s.peers| && |packet| >= HEADER_LEN
      && PeekHeader(packet).value.peerID == s.peers[r].id
    case Authenticated(r, m, _, source) => Genuine(s, r, m, source)
    case Handling(opener, r, m, source) => Genuine(s, r, m, source) && opener == r
    case Delivering(r, m, source) =>
      && Genuine(s, r, m, source) && m.header.kind == DATA
      && m.header.sequence in s.peers[r].accepted && Unwritten(s, r, m.header.sequence)
    case Touching(r) => r < |s.peers|
  }

  ghost predicate TunOk(s: State)
  {
    match s.tun
    case TunReading => true
    case TunDown => true
    case TunFound(r, packet) => Addressed(s, r, packet)
    case TunDrawn(r, packet, _) => Addressed(s, r, packet)
  }

  /** The inner destination is the peer's tunnel IP. */
  ghost predicate Addressed(s: State, r: nat, packet: seq<byte>)
  {
    r < |s.peers| && s.peers[r].tunnelIP.V4? && ExtractDst(packet) == Dst(s.peers[r].tunnelIP.addr)
    && 0 < |packet| <= MAX_PAYLOAD
  }

  ghost predicate WritesOk(s: State)
  {
    && (forall i :: 0 <= i < |s.writes| ==>
          && FromClient(s, s.writes[i].peer, DATA, s.writes[i].sequence, s.writes[i].payload, s.writes[i].source)
          && s.writes[i].sequence in s.peers[s.writes[i].peer].accepted)
    && (forall i, j :: 0 <= i < j < |s.writes| && s.writes[i].peer == s.writes[j].peer ==>
          s.writes[i].sequence != s.writes[j].sequence)
  }

  ghost predicate Inv(s: State)
  {
    && PeersOk(s) && IndexOk(s) && DrawsOk(s) && PendingApart(s) && LogOk(s)
    && ClientsOk(s) && UdpOk(s) && TunOk(s) && WritesOk(s)
  }

  // ---- Reading one fact out of a group ----

  lemma InvIndex(s: State)
    requires Inv(s)
    ensures IndexOk(s)
  {
  }

  lemma PeerAt(s: State, r: nat)
    requires PeersOk(s) && r < |s.peers|
    ensures PeerOk(s, r)
  {
  }

  lemma LinkAt(s: State, c: nat)
    requires ClientsOk(s) && HasLink(s, c)
    ensures LinkOk(s, c)
  {
  }

  lemma PendingAt(s: State, o: Owner, sequence: uint64)
    requires DrawsOk(s) && Pending(s, o, sequence)
    ensures 1 <= sequence <= Count(s, o) && Unused(s, o, sequence)
  {
  }

  /** The live peer under an id is the one registered with it. */
  lemma LiveByID(s: State, id: uint64)
    requires PeersOk(s) && IndexOk(s) && id in s.index.byID
    ensures 1 <= id <= |s.peers| && s.index.byID[id] == id - 1
  {
    assert Described(s.index, Infos(s), id);
    PeerAt(s, s.index.byID[id]);
  }

  // ---- What steps may change ----

  ghost predicate PeerGrows(p: Peer, q: Peer)
  {
    && q.id == p.id && q.clientRandom == p.clientRandom && q.hello == p.hello
    && (p.serverRandom.Some? ==> q.serverRandom == p.serverRandom)
    && (p.cipher.Some? ==> q.cipher == p.cipher)
    && (p.tunnelIP.V4? ==> q.tunnelIP == p.tunnelIP)
    && p.sends <= q.sends && p.accepted <= q.accepted
  }

  ghost predicate ClientGrows(c: Client, d: Client)
  {
    && d.random == c.random
    && (d.phase.Established? && !c.phase.Established? ==> d.phase.link.sends >= 1)
    && (c.phase.Established? ==>
          && d.phase.Established?
          && d.phase.link.peerID == c.phase.link.peerID && d.phase.link.key == c.phase.link.key
          && d.phase.link.tunnelIP == c.phase.link.tunnelIP && d.phase.link.mtu == c.phase.link.mtu
          && d.phase.link.serverRandom == c.phase.link.serverRandom
          && c.phase.link.sends <= d.phase.link.sends)
  }

  ghost predicate Grows(s: State, t: State)
  {
    && t.network == s.network
    && |s.peers| <= |t.peers| && (forall r :: 0 <= r < |s.peers| ==> PeerGrows(s.peers[r], t.peers[r]))
    && |s.clients| <= |t.clients| && (forall c :: 0 <= c < |s.clients| ==> ClientGrows(s.clients[c], t.clients[c]))
    && s.log <= t.log && s.origins <= t.origins
  }

  // ---- Facts survive growth ----

  lemma FitsGrows(s: State, t: State, sealed: Sealed, o: Origin)
    requires Grows(s, t) && RecordFits(s, sealed, o)
    ensures RecordFits(t, sealed, o)
  {
    match o.owner
    case ByClient(c) => assert ClientGrows(s.clients[c], t.clients[c]);
    case ByPeer(r) => assert PeerGrows(s.peers[r], t.peers[r]);
  }

  lemma FromClientGrows(s: State, t: State, r: nat, kind: byte, sequence: uint64, payload: seq<byte>, source: nat)
    requires Grows(s, t) && FromClient(s, r, kind, sequence, payload, source)
    ensures FromClient(t, r, kind, sequence, payload, source)
  {
    SameSessionGrows(s, t, s.origins[source].owner.client, r);
  }

  lemma SameSessionGrows(s: State, t: State, c: nat, r: nat)
    requires Grows(s, t) && SameSession(s, c, r)
    ensures SameSession(t, c, r)
  {
    assert ClientGrows(s.clients[c], t.clients[c]) && PeerGrows(s.peers[r], t.peers[r]);
  }

  lemma FromPeerGrows(s: State, t: State, c: nat, d: Delivery)
    requires Grows(s, t) && FromPeer(s, c, d)
    ensures FromPeer(t, c, d)
  {
    assert ClientGrows(s.clients[c], t.clients[c]);
  }

  lemma LogKeeps(s: State, t: State)
    requires LogOk(s) && Grows(s, t) && t.log == s.log && t.origins == s.origins
    ensures LogOk(t)
  {
    forall i | 0 <= i < |t.log| ensures RecordFits(t, t.log[i], t.origins[i]) {
      FitsGrows(s, t, s.log[i], s.origins[i]);
    }
  }

  lemma LogAppends(s: State, t: State, sealed: Sealed, o: Origin)
    requires LogOk(s) && Grows(s, t) && t.log == s.log + [sealed] && t.origins == s.origins + [o]
    requires RecordFits(t, sealed, o)
    ensures LogOk(t)
  {
    forall i | 0 <= i < |t.log| ensures RecordFits(t, t.log[i], t.origins[i]) {
      if i < |s.log| {
        FitsGrows(s, t, s.log[i], s.origins[i]);
      }
    }
  }

  lemma WritesKeep(s: State, t: State)
    requires WritesOk(s) && Grows(s, t) && t.writes == s.writes
    ensures WritesOk(t)
  {
    forall i | 0 <= i < |t.writes|
      ensures FromClient(t, t.writes[i].peer, DATA, t.writes[i].sequence, t.writes[i].payload, t.writes[i].source)
              && t.writes[i].sequence in t.peers[t.writes[i].peer].accepted
    {
      var w := s.writes[i];
      FromClientGrows(s, t, w.peer, DATA, w.sequence, w.payload, w.source);
      assert PeerGrows(s.peers[w.peer], t.peers[w.peer]);
    }
  }

  lemma LinkKeeps(s: State, t: State, c: nat)
    requires Grows(s, t) && HasLink(s, c) && LinkOk(s, c) && t.clients[c] == s.clients[c]
    ensures LinkOk(t, c)
  {
    var link := LinkOf(s, c);
    SameSessionGrows(s, t, c, link.peerID - 1);
    assert PeerGrows(s.peers[link.peerID - 1], t.peers[link.peerID - 1]);
    forall i | 0 <= i < |link.delivered| ensures FromPeer(t, c, link.delivered[i]) {
      FromPeerGrows(s, t, c, link.delivered[i]);
    }
    if link.inbox.Some? {
      FromPeerGrows(s, t, c, link.inbox.value);
    }
  }

  lemma ClientsKeep(s: State, t: State)
    requires ClientsOk(s) && Grows(s, t) && t.clients == s.clients
    ensures ClientsOk(t)
  {
    forall c | HasLink(t, c) ensures LinkOk(t, c) {
      LinkKeeps(s, t, c);
    }
  }

  lemma ClientChanges(s: State, t: State, c: nat)
    requires ClientsOk(s) && Grows(s, t) && c < |s.clients| && t.clients == s.clients[c := t.clients[c]]
    requires HasLink(t, c) ==> LinkOk(t, c)
    ensures ClientsOk(t)
  {
    assert t.clients[c].random == s.clients[c].random by { assert ClientGrows(s.clients[c], t.clients[c]); }
    forall d | HasLink(t, d) ensures LinkOk(t, d) {
      if d != c {
        assert HasLink(s, d);
        LinkKeeps(s, t, d);
      }
    }
  }

  lemma GreetedGrows(s: State, t: State, p: Peer, q: Peer)
    requires Grows(s, t) && GreetedBy(s, p) && q.hello == p.hello && q.clientRandom == p.clientRandom
    requires forall x :: x in q.accepted ==> x in p.accepted || x <= Count(s, s.origins[p.hello].owner)
    ensures GreetedBy(t, q)
  {
    assert ClientGrows(s.clients[s.origins[p.hello].owner.client], t.clients[s.origins[p.hello].owner.client]);
  }

  lemma PeersKeep(s: State, t: State)
    requires PeersOk(s) && Grows(s, t) && t.peers == s.peers
    ensures PeersOk(t)
  {
    forall r | 0 <= r < |t.peers| ensures PeerOk(t, r) {
      assert PeerOk(s, r);
      GreetedGrows(s, t, s.peers[r], t.peers[r]);
    }
  }

  /** The client that greeted peer r has drawn x. */
  ghost predicate DrawnBy(s: State, r: nat, x: uint64)
  {
    r < |s.peers| && s.peers[r].hello < |s.origins| && x <= Count(s, s.origins[s.peers[r].hello].owner)
  }

  lemma HelloIsDrawn(s: State, r: nat)
    requires PeersOk(s) && DrawsOk(s) && r < |s.peers|
    ensures DrawnBy(s, r, 1)
  {
    PeerAt(s, r);
  }

  /** A step on one peer: the rest of PeerOk is monotone. */
  lemma PeerChanges(s: State, t: State, r: nat)
    requires PeersOk(s) && Grows(s, t) && r < |s.peers| && t.peers == s.peers[r := t.peers[r]]
    requires
      var q := t.peers[r];
      && Refines(q.window, q.accepted)
      && q.cipher == (if q.serverRandom.None? then None else Some(PeerKey(q.id, q.clientRandom, q.serverRandom.value)))
      && (q.tunnelIP.V4? ==> q.serverRandom.Some? && Allocate(t.network, q.id) == Some(q.tunnelIP.addr))
    requires t.peers[r].serverRandom == s.peers[r].serverRandom
             || (t.peers[r].serverRandom.Some? && FreshServerRandom(s, t.peers[r].serverRandom.value))
    requires forall x :: x in t.peers[r].accepted ==> x in s.peers[r].accepted || DrawnBy(s, r, x)
    ensures PeersOk(t)
  {
    forall q | 0 <= q < |t.peers| ensures PeerOk(t, q) {
      assert PeerOk(s, q);
      assert PeerGrows(s.peers[q], t.peers[q]);
      GreetedGrows(s, t, s.peers[q], t.peers[q]);
    }
  }

  lemma IndexKeeps(s: State, t: State)
    requires IndexOk(s) && t.network == s.network && t.index == s.index && |t.peers| == |s.peers|
    requires forall r :: 0 <= r < |s.peers| ==>
               t.peers[r].id == s.peers[r].id && t.peers[r].clientRandom == s.peers[r].clientRandom
               && t.peers[r].tunnelIP == s.peers[r].tunnelIP
    ensures IndexOk(t)
  {
    assert Infos(t) == Infos(s);
  }

  /** Steps of the other loops leave the udpToTun loop's facts alone. */
  lemma UdpKeeps(s: State, t: State)
    requires UdpOk(s) && Grows(s, t) && t.udp == s.udp && t.writes == s.writes
    requires forall r :: 0 <= r < |s.peers| ==>
               t.peers[r].serverRandom == s.peers[r].serverRandom && t.peers[r].tunnelIP == s.peers[r].tunnelIP
    ensures UdpOk(t)
  {
    if s.udp.Authenticated? || s.udp.Handling? || s.udp.Delivering? {
      FromClientGrows(s, t, s.udp.peer, s.udp.message.header.kind, s.udp.message.header.sequence,
        s.udp.message.payload, s.udp.source);
    }
    if !(s.udp.Reading? || s.udp.UdpDown?) {
      assert PeerGrows(s.peers[s.udp.peer], t.peers[s.udp.peer]);
    }
  }

  lemma TunKeeps(s: State, t: State)
    requires TunOk(s) && Grows(s, t) && t.tun == s.tun
    ensures TunOk(t)
  {
    if s.tun.TunFound? || s.tun.TunDrawn? {
      assert PeerGrows(s.peers[s.tun.peer], t.peers[s.tun.peer]);
    }
  }

  // ---- Counters ----

  /** Nothing drawn, nothing sealed. */
  lemma DrawsKeep(s: State, t: State)
    requires DrawsOk(s) && t.log == s.log && t.origins == s.origins
    requires forall o :: Count(s, o) <= Count(t, o)
    requires forall o, q: uint64 :: Pending(t, o, q) ==> Pending(s, o, q)
    ensures DrawsOk(t)
  {
    forall o, q: uint64 | Pending(t, o, q) ensures 1 <= q <= Count(t, o) && Unused(t, o, q) {
      assert Pending(s, o, q) && Unused(s, o, q);
    }
  }

  /** One number drawn from owner's counter: it is above everything drawn before. */
  lemma DrawsDraw(s: State, t: State, owner: Owner)
    requires DrawsOk(s) && t.log == s.log && t.origins == s.origins
    requires forall o :: Count(t, o) == if o == owner then Count(s, o) + 1 else Count(s, o)
    requires Count(t, owner) < TWO_64
    requires forall o, q: uint64 :: Pending(t, o, q) ==> Pending(s, o, q) || (o == owner && q == Count(s, owner) + 1)
    ensures DrawsOk(t)
  {
    forall o, q: uint64 | Pending(t, o, q) ensures 1 <= q <= Count(t, o) && Unused(t, o, q) {
      if Pending(s, o, q) {
        assert Unused(s, o, q);
      }
    }
  }

  /** One pending number sealed. */
  lemma DrawsSeal(s: State, t: State, o: Origin)
    requires DrawsOk(s) && |t.log| == |s.log| + 1 && t.origins == s.origins + [o]
    requires forall x :: Count(s, x) <= Count(t, x)
    requires Unused(s, o.owner, o.sequence) && 1 <= o.sequence <= Count(t, o.owner)
    requires forall x, q: uint64 :: Pending(t, x, q) ==> Pending(s, x, q) && !(x == o.owner && q == o.sequence)
    ensures DrawsOk(t)
  {
    forall x, q: uint64 | Pending(t, x, q) ensures 1 <= q <= Count(t, x) && Unused(t, x, q) {
      assert Pending(s, x, q) && Unused(s, x, q);
    }
    forall i, j | 0 <= i < j < |t.origins| && t.origins[i].owner == t.origins[j].owner
      ensures t.origins[i].sequence != t.origins[j].sequence
    {
      if j == |s.origins| {
        assert !(s.origins[i].owner == o.owner && s.origins[i].sequence == o.sequence);
      }
    }
  }
}
