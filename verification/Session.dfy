/** The tunnel session protocol as a step system: the server's three loops, any number of clients and
    a network that delivers arbitrary bytes. A step is one mutex-protected action together with the
    loop-local work around it: internal/server/server.go, internal/server/handler.go,
    internal/client/handshake.go, internal/client/session.go. */
module Session {
  import opened Bytes
  import opened Codec
  import opened Aead
  import opened PacketCodec
  import opened PeerIndex
  import opened Addressing
  import opened ReplayWindow

  const MTU: uint16 := 1436
  const PEER_TIMEOUT: int := 30

  // ---- Who sealed what (history; no step reads it) ----

  datatype Owner = ByClient(client: nat) | ByPeer(peer: nat)
  datatype Origin = Origin(owner: Owner, sequence: uint64, kind: byte)

  // ---- Server ----

  /** internal/server/peer.go. serverSendSequence is the uint64 that counts `sends`.
      serverRandom, accepted and hello are history. */
  datatype Peer = Peer(
    id: uint64,
    addr: Address,
    clientRandom: Random,
    tunnelIP: TunnelIP,
    cipher: Option<Key>,
    sends: nat,
    window: Window,
    lastSeen: int,
    serverRandom: Option<Random>,
    accepted: set<uint64>,
    hello: nat)

  /** Where the udpToTun loop stands. Peers are named by their position in State.peers, as pointers would. */
  datatype UdpLoop =
    | Reading
    | Registered(peer: nat, random: Random, sequence: uint64)
    | HelloAccepted(peer: nat, random: Random)
    | Keyed(peer: nat, random: Random, serverRandom: Random)
    | Routable(peer: nat, random: Random, serverRandom: Random, ip: uint32)
    | WelcomeDrawn(peer: nat, random: Random, serverRandom: Random, ip: uint32, sequence: uint64)
    | Found(peer: nat, packet: seq<byte>, from: Address)
    | Authenticated(peer: nat, message: Message, from: Address, source: nat)
    | Handling(opener: nat, peer: nat, message: Message, source: nat)
    | Delivering(peer: nat, message: Message, source: nat)
    | Touching(peer: nat)
    | UdpDown

  datatype TunLoop =
    | TunReading
    | TunFound(peer: nat, packet: seq<byte>)
    | TunDrawn(peer: nat, packet: seq<byte>, sequence: uint64)
    | TunDown

  /** One write to the server's TUN; source is the Seal call the payload came from. */
  datatype TunWrite = TunWrite(peer: nat, sequence: uint64, payload: seq<byte>, source: nat)

  // ---- Client ----

  datatype Draw = Draw(sequence: uint64, payload: seq<byte>)
  datatype Delivery = Delivery(sequence: uint64, payload: seq<byte>, source: nat)

  /** An established session; tun and ping are the numbers drawn but not yet sealed by the two send loops. */
  datatype Link = Link(
    peerID: uint64,
    tunnelIP: uint32,
    mtu: uint16,
    key: Key,
    sends: nat,
    window: Window,
    tun: Option<Draw>,
    ping: Option<uint64>,
    inbox: Option<Delivery>,
    delivered: seq<Delivery>,
    serverRandom: Random,
    accepted: set<uint64>)

  datatype Phase = AwaitingWelcome | HandshakeFailed | Established(link: Link)

  datatype Client = Client(random: Random, phase: Phase)

  datatype State = State(
    network: Network,
    peers: seq<Peer>,
    index: Index<nat>,
    udp: UdpLoop,
    tun: TunLoop,
    writes: seq<TunWrite>,
    clients: seq<Client>,
    clock: int,
    log: seq<Sealed>,
    origins: seq<Origin>)

  function Init(network: Network): State
  {
    State(network, [], Empty(), Reading, TunReading, [], [], 0, [], [])
  }

  /** The uint64 counter after n increments. */
  function Counter(n: nat): uint64
  {
    n % TWO_64
  }

  lemma NextCount(n: nat)
    ensures (Counter(n) + 1) % TWO_64 == Counter(n + 1)
  {
    var q := n / TWO_64;
    assert n == q * TWO_64 + Counter(n);
    if Counter(n) + 1 == TWO_64 {
      assert n + 1 == (q + 1) * TWO_64;
    }
  }

  function Infos(s: State): map<nat, Info>
  {
    map r | 0 <= r < |s.peers| :: Info(s.peers[r].id, s.peers[r].clientRandom, s.peers[r].tunnelIP)
  }

  function Append(s: State, sealed: Sealed, o: Origin): State
  {
    s.(log := s.log + [sealed], origins := s.origins + [o])
  }

  function MessageOf(kind: byte, peerID: uint64, sequence: uint64, payload: seq<byte>): Message
  {
    Message(Header(0, kind, 0, 0, peerID, sequence), payload)
  }

  // ---- peer methods ----

  function Accepting(p: Peer, sequence: uint64): (Peer, Verdict)
  {
    var (w, v) := Advance(p.window, sequence);
    (p.(window := w, accepted := Record(p.accepted, sequence, v)), v)
  }

  function Drawing(p: Peer): Peer
  {
    p.(sends := p.sends + 1)
  }

  function WithPeer(s: State, r: nat, p: Peer): State
    requires r < |s.peers|
  {
    s.(peers := s.peers[r := p])
  }

  // ---- udpToTun ----

  /** ReadFromUDP returns anything the network likes; the header decides what happens. */
  function UdpReceive(s: State, packet: seq<byte>, from: Address): State
  {
    match PeekHeader(packet)
    case Err(_) => s
    case Ok(header) =>
      if header.kind == ALOHA then
        match DecodeAloha(s.log, packet)
        case Err(_) => s
        case Ok((m, random)) => RegisterPeer(s, packet, from, random, m.header.sequence)
      else if header.peerID !in s.index.byID then s
      else s.(udp := Found(s.index.byID[header.peerID], packet, from))
  }

  function RegisterPeer(s: State, packet: seq<byte>, from: Address, random: Random, sequence: uint64): State
    requires |packet| >= PREFIX_LEN
  {
    if random in s.index.byClientRandom then s
    else
      var hello := HandshakeSource(s.log, AlohaKey(random), ClientToServer, packet).GetOr(0);
      var p := Peer(s.index.nextID, from, random, Unset, None, 0, EMPTY_WINDOW, s.clock, None, {}, hello);
      s.(peers := s.peers + [p], index := Insert(s.index, |s.peers|, random),
        udp := Registered(|s.peers|, random, sequence))
  }

  predicate CanAcceptHello(s: State)
  {
    s.udp.Registered? && s.udp.peer < |s.peers|
  }

  function AcceptHello(s: State): State
    requires CanAcceptHello(s)
  {
    var (p, v) := Accepting(s.peers[s.udp.peer], s.udp.sequence);
    WithPeer(s, s.udp.peer, p).(udp := if v == Accepted then HelloAccepted(s.udp.peer, s.udp.random) else Reading)
  }

  /** crypto/rand never repeats a server random. */
  predicate FreshServerRandom(s: State, random: Random)
  {
    forall r :: 0 <= r < |s.peers| ==> s.peers[r].serverRandom != Some(random)
  }

  predicate CanSetCipher(s: State, serverRandom: Random)
  {
    s.udp.HelloAccepted? && s.udp.peer < |s.peers| && FreshServerRandom(s, serverRandom)
  }

  function SetCipher(s: State, serverRandom: Random): State
    requires CanSetCipher(s, serverRandom)
  {
    var r := s.udp.peer;
    var p := s.peers[r];
    WithPeer(s, r, p.(cipher := Some(PeerKey(p.id, s.udp.random, serverRandom)), serverRandom := Some(serverRandom)))
    .(udp := Keyed(r, s.udp.random, serverRandom))
  }

  predicate CanRoute(s: State)
  {
    s.udp.Keyed? && s.udp.peer < |s.peers| && forall id :: id in s.index.byID ==> s.index.byID[id] < |s.peers|
  }

  /** allocateTunnelIP and setTunnelIP; an error ends the loop. */
  function RoutePeer(s: State): State
    requires CanRoute(s)
  {
    var id := s.peers[s.udp.peer].id;
    match Allocate(s.network, id)
    case None => s.(udp := UdpDown)
    case Some(ip) =>
      match SetTunnelIP(s.index, id, V4(ip))
      case NotFound => s.(udp := UdpDown)
      case AlreadyExists => s.(udp := UdpDown)
      case Set(index, q) =>
        WithPeer(s, q, s.peers[q].(tunnelIP := V4(ip)))
        .(index := index, udp := Routable(s.udp.peer, s.udp.random, s.udp.serverRandom, ip))
  }

  predicate CanDrawWelcome(s: State)
  {
    s.udp.Routable? && s.udp.peer < |s.peers|
  }

  function DrawWelcome(s: State): State
    requires CanDrawWelcome(s)
  {
    var u := s.udp;
    var p := Drawing(s.peers[u.peer]);
    WithPeer(s, u.peer, p).(udp := WelcomeDrawn(u.peer, u.random, u.serverRandom, u.ip, Counter(p.sends)))
  }

  predicate CanSendWelcome(s: State, ciphertext: seq<byte>)
  {
    s.udp.WelcomeDrawn? && s.udp.peer < |s.peers| && |ciphertext| == WELCOME_PAYLOAD_LEN + TAG_LEN
  }

  function SendWelcome(s: State, ciphertext: seq<byte>): State
    requires CanSendWelcome(s, ciphertext)
  {
    var u := s.udp;
    var m := MessageOf(WELCOME, s.peers[u.peer].id, u.sequence, WelcomePayload(u.ip, MTU));
    match EncodeWelcome(WelcomeKey(u.random, u.serverRandom), m, u.serverRandom, ciphertext)
    case Err(_) => s.(udp := UdpDown)
    case Ok(sealed) => Append(s, sealed, Origin(ByPeer(u.peer), u.sequence, WELCOME)).(udp := Reading)
  }

  predicate CanOpen(s: State)
  {
    s.udp.Found? && s.udp.peer < |s.peers| && |s.udp.packet| >= HEADER_LEN
  }

  /** cipherSnapshot, DecodePacket and the dispatch on the header's type. */
  function OpenFound(s: State): State
    requires CanOpen(s)
  {
    var u := s.udp;
    match s.peers[u.peer].cipher
    case None => s.(udp := Reading)
    case Some(key) =>
      match DecodePacket(s.log, key, ClientToServer, u.packet)
      case Err(_) => s.(udp := Reading)
      case Ok(m) =>
        var source := PacketSource(s.log, key, ClientToServer, u.packet).GetOr(0);
        if m.header.kind == KEEPALIVE || m.header.kind == DATA
        then s.(udp := Authenticated(u.peer, m, u.from, source))
        else s.(udp := Reading)
  }

  predicate CanLookup(s: State)
  {
    s.udp.Authenticated? && forall id :: id in s.index.byID ==> s.index.byID[id] < |s.peers|
  }

  /** The handler's own lookup, and for DATA the checks before and after it. */
  function LookupAgain(s: State): State
    requires CanLookup(s)
  {
    var u := s.udp;
    var id := u.message.header.peerID;
    if u.message.header.kind == DATA && |u.message.payload| == 0 then s.(udp := Reading)
    else if id !in s.index.byID then s.(udp := Reading)
    else if u.message.header.kind == DATA && s.peers[s.index.byID[id]].addr != u.from then s.(udp := Reading)
    else s.(udp := Handling(u.peer, s.index.byID[id], u.message, u.source))
  }

  predicate CanAcceptMessage(s: State)
  {
    s.udp.Handling? && s.udp.peer < |s.peers|
  }

  function AcceptMessage(s: State): State
    requires CanAcceptMessage(s)
  {
    var u := s.udp;
    var (p, v) := Accepting(s.peers[u.peer], u.message.header.sequence);
    WithPeer(s, u.peer, p).(udp :=
      if v != Accepted then Reading
      else if u.message.header.kind == DATA then Delivering(u.peer, u.message, u.source)
      else Touching(u.peer))
  }

  predicate CanDeliver(s: State)
  {
    s.udp.Delivering?
  }

  function Deliver(s: State): State
    requires CanDeliver(s)
  {
    var u := s.udp;
    s.(writes := s.writes + [TunWrite(u.peer, u.message.header.sequence, u.message.payload, u.source)],
      udp := Touching(u.peer))
  }

  predicate CanTouch(s: State)
  {
    s.udp.Touching? && s.udp.peer < |s.peers|
  }

  function Touch(s: State): State
    requires CanTouch(s)
  {
    WithPeer(s, s.udp.peer, s.peers[s.udp.peer].(lastSeen := s.clock)).(udp := Reading)
  }

  // ---- tunToUdp ----

  predicate CanReadTun(s: State, packet: seq<byte>)
  {
    s.tun == TunReading && 0 < |packet| <= MAX_PAYLOAD
  }

  function ReadTun(s: State, packet: seq<byte>): State
    requires CanReadTun(s, packet)
  {
    match ExtractDst(packet)
    case Unsupported => s
    case Malformed => s.(tun := TunDown)
    case Dst(ip) =>
      if V4(ip) in s.index.byTunnelIP then s.(tun := TunFound(s.index.byTunnelIP[V4(ip)], packet)) else s
  }

  predicate CanDrawData(s: State)
  {
    s.tun.TunFound? && s.tun.peer < |s.peers|
  }

  function DrawData(s: State): State
    requires CanDrawData(s)
  {
    var p := Drawing(s.peers[s.tun.peer]);
    WithPeer(s, s.tun.peer, p).(tun := TunDrawn(s.tun.peer, s.tun.packet, Counter(p.sends)))
  }

  predicate CanSendData(s: State, ciphertext: seq<byte>)
  {
    s.tun.TunDrawn? && s.tun.peer < |s.peers| && Tagged(s.tun.packet, ciphertext)
  }

  function SendData(s: State, ciphertext: seq<byte>): State
    requires CanSendData(s, ciphertext)
  {
    var t := s.tun;
    match s.peers[t.peer].cipher
    case None => s.(tun := TunReading)
    case Some(key) =>
      match EncodePacket(key, ServerToClient, MessageOf(DATA, s.peers[t.peer].id, t.sequence, t.packet), ciphertext)
      case Err(_) => s.(tun := TunDown)
      case Ok(sealed) => Append(s, sealed, Origin(ByPeer(t.peer), t.sequence, DATA)).(tun := TunReading)
  }

  // ---- expirePeersLoop ----

  function Expired(s: State, now: int): set<nat>
  {
    set r | 0 <= r < |s.peers| && s.peers[r].id in s.index.byID && s.index.byID[s.peers[r].id] == r
            && now - s.peers[r].lastSeen > PEER_TIMEOUT
  }

  function ExpirePeers(s: State, now: int): State
  {
    s.(index := Remove(s.index, Infos(s), Expired(s, now)))
  }

  // ---- clients ----

  predicate FreshClientRandom(s: State, random: Random)
  {
    forall c :: 0 <= c < |s.clients| ==> s.clients[c].random != random
  }

  predicate CanHello(s: State, random: Random, ciphertext: seq<byte>)
  {
    FreshClientRandom(s, random) && |ciphertext| == TAG_LEN
  }

  /** A new client draws its random and sends ALOHA with sequence 1. */
  function Hello(s: State, random: Random, ciphertext: seq<byte>): State
    requires CanHello(s, random, ciphertext)
  {
    match EncodeAloha(AlohaKey(random), MessageOf(ALOHA, 0, 1, []), random, ciphertext)
    case Err(_) => s
    case Ok(sealed) =>
      Append(s, sealed, Origin(ByClient(|s.clients|), 1, ALOHA)).(clients := s.clients
        + [Client(random, AwaitingWelcome)])
  }

  predicate CanFinishHandshake(s: State, c: nat)
  {
    c < |s.clients| && s.clients[c].phase == AwaitingWelcome
  }

  /** What the client makes of the one packet it reads. */
  function Welcomed(log: seq<Sealed>, random: Random, packet: seq<byte>): Phase
  {
    match DecodeWelcome(log, packet, random)
    case Err(_) => HandshakeFailed
    case Ok((m, serverRandom)) =>
      if m.header.kind != WELCOME || m.header.sequence != 1 then HandshakeFailed
      else
        match ReadWelcomePayload(m.payload)
        case None => HandshakeFailed
        case Some((ip, mtu)) =>
          Established(Link(m.header.peerID, ip, mtu, PeerKey(m.header.peerID, random, serverRandom), 1,
                           Advance(EMPTY_WINDOW, 1).0, None, None, None, [], serverRandom, {1}))
  }

  function FinishHandshake(s: State, c: nat, packet: seq<byte>): State
    requires CanFinishHandshake(s, c)
  {
    var client := s.clients[c];
    s.(clients := s.clients[c := client.(phase := Welcomed(s.log, client.random, packet))])
  }

  predicate HasLink(s: State, c: nat)
  {
    c < |s.clients| && s.clients[c].phase.Established?
  }

  function LinkOf(s: State, c: nat): Link
    requires HasLink(s, c)
  {
    s.clients[c].phase.link
  }

  function WithLink(s: State, c: nat, link: Link): State
    requires c < |s.clients|
  {
    s.(clients := s.clients[c := s.clients[c].(phase := Established(link))])
  }

  predicate CanDrawTun(s: State, c: nat, payload: seq<byte>)
  {
    HasLink(s, c) && LinkOf(s, c).tun.None? && 0 < |payload| <= MAX_PAYLOAD
  }

  function DrawTunLink(link: Link, payload: seq<byte>): Link
  {
    link.(sends := link.sends + 1, tun := Some(Draw(Counter(link.sends + 1), payload)))
  }

  function DrawTun(s: State, c: nat, payload: seq<byte>): State
    requires CanDrawTun(s, c, payload)
  {
    WithLink(s, c, DrawTunLink(LinkOf(s, c), payload))
  }

  predicate CanSendTun(s: State, c: nat, ciphertext: seq<byte>)
  {
    HasLink(s, c) && LinkOf(s, c).tun.Some? && Tagged(LinkOf(s, c).tun.value.payload, ciphertext)
  }

  function SendTun(s: State, c: nat, ciphertext: seq<byte>): State
    requires CanSendTun(s, c, ciphertext)
  {
    var link := LinkOf(s, c);
    var draw := link.tun.value;
    match EncodePacket(link.key, ClientToServer, MessageOf(DATA, link.peerID, draw.sequence, draw.payload), ciphertext)
    case Err(_) => s
    case Ok(sealed) =>
      WithLink(Append(s, sealed, Origin(ByClient(c), draw.sequence, DATA)), c, link.(tun := None))
  }

  predicate CanDrawPing(s: State, c: nat)
  {
    HasLink(s, c) && LinkOf(s, c).ping.None?
  }

  function DrawPingLink(link: Link): Link
  {
    link.(sends := link.sends + 1, ping := Some(Counter(link.sends + 1)))
  }

  function DrawPing(s: State, c: nat): State
    requires CanDrawPing(s, c)
  {
    WithLink(s, c, DrawPingLink(LinkOf(s, c)))
  }

  predicate CanSendPing(s: State, c: nat, ciphertext: seq<byte>)
  {
    HasLink(s, c) && LinkOf(s, c).ping.Some? && |ciphertext| == TAG_LEN
  }

  function SendPing(s: State, c: nat, ciphertext: seq<byte>): State
    requires CanSendPing(s, c, ciphertext)
  {
    var link := LinkOf(s, c);
    match EncodePacket(link.key, ClientToServer, MessageOf(KEEPALIVE, link.peerID, link.ping.value, []), ciphertext)
    case Err(_) => s
    case Ok(sealed) =>
      WithLink(Append(s, sealed, Origin(ByClient(c), link.ping.value, KEEPALIVE)), c, link.(ping := None))
  }

  predicate CanReceive(s: State, c: nat, packet: seq<byte>)
  {
    HasLink(s, c) && LinkOf(s, c).inbox.None? && |packet| > 0
  }

  /** The client's udpToTun up to acceptServerSequence. */
  function ReceiveLink(log: seq<Sealed>, link: Link, packet: seq<byte>): Link
  {
    match DecodePacket(log, link.key, ServerToClient, packet)
    case Err(_) => link
    case Ok(m) =>
      if m.header.kind != DATA then link
      else
        var (w, v) := Advance(link.window, m.header.sequence);
        if v != Accepted then link.(window := w)
        else
          var source := PacketSource(log, link.key, ServerToClient, packet).GetOr(0);
          link.(window := w, accepted := link.accepted + {m.header.sequence},
                inbox := Some(Delivery(m.header.sequence, m.payload, source)))
  }

  function Receive(s: State, c: nat, packet: seq<byte>): State
    requires CanReceive(s, c, packet)
  {
    WithLink(s, c, ReceiveLink(s.log, LinkOf(s, c), packet))
  }

  predicate CanDeliverLink(s: State, c: nat)
  {
    HasLink(s, c) && LinkOf(s, c).inbox.Some?
  }

  function DeliverLink(s: State, c: nat): State
    requires CanDeliverLink(s, c)
  {
    var link := LinkOf(s, c);
    WithLink(s, c, link.(delivered := link.delivered + [link.inbox.value], inbox := None))
  }

  // ---- Runs ----

  datatype Step =
    | StepUdpReceive(packet: seq<byte>, from: Address)
    | StepAcceptHello
    | StepSetCipher(serverRandom: Random)
    | StepRoutePeer
    | StepDrawWelcome
    | StepSendWelcome(ciphertext: seq<byte>)
    | StepOpenFound
    | StepLookupAgain
    | StepAcceptMessage
    | StepDeliver
    | StepTouch
    | StepUdpFail
    | StepReadTun(packet: seq<byte>)
    | StepDrawData
    | StepSendData(ciphertext: seq<byte>)
    | StepTunFail
    | StepExpire(now: int)
    | StepTick(clock: int)
    | StepHello(random: Random, ciphertext: seq<byte>)
    | StepFinishHandshake(client: nat, packet: seq<byte>)
    | StepDrawTun(client: nat, packet: seq<byte>)
    | StepSendTun(client: nat, ciphertext: seq<byte>)
    | StepDrawPing(client: nat)
    | StepSendPing(client: nat, ciphertext: seq<byte>)
    | StepReceive(client: nat, packet: seq<byte>)
    | StepDeliverLink(client: nat)

  predicate Enabled(s: State, step: Step)
  {
    match step
    case StepUdpReceive(_, _) => s.udp == Reading
    case StepAcceptHello => CanAcceptHello(s)
    case StepSetCipher(serverRandom) => CanSetCipher(s, serverRandom)
    case StepRoutePeer => CanRoute(s)
    case StepDrawWelcome => CanDrawWelcome(s)
    case StepSendWelcome(ciphertext) => CanSendWelcome(s, ciphertext)
    case StepOpenFound => CanOpen(s)
    case StepLookupAgain => CanLookup(s)
    case StepAcceptMessage => CanAcceptMessage(s)
    case StepDeliver => CanDeliver(s)
    case StepTouch => CanTouch(s)
    case StepUdpFail => true
    case StepReadTun(packet) => CanReadTun(s, packet)
    case StepDrawData => CanDrawData(s)
    case StepSendData(ciphertext) => CanSendData(s, ciphertext)
    case StepTunFail => true
    case StepExpire(now) => now <= s.clock
    case StepTick(clock) => s.clock <= clock
    case StepHello(random, ciphertext) => CanHello(s, random, ciphertext)
    case StepFinishHandshake(c, _) => CanFinishHandshake(s, c)
    case StepDrawTun(c, packet) => CanDrawTun(s, c, packet)
    case StepSendTun(c, ciphertext) => CanSendTun(s, c, ciphertext)
    case StepDrawPing(c) => CanDrawPing(s, c)
    case StepSendPing(c, ciphertext) => CanSendPing(s, c, ciphertext)
    case StepReceive(c, packet) => CanReceive(s, c, packet)
    case StepDeliverLink(c) => CanDeliverLink(s, c)
  }

  function Apply(s: State, step: Step): State
    requires Enabled(s, step)
  {
    match step
    case StepUdpReceive(packet, from) => UdpReceive(s, packet, from)
    case StepAcceptHello => AcceptHello(s)
    case StepSetCipher(serverRandom) => SetCipher(s, serverRandom)
    case StepRoutePeer => RoutePeer(s)
    case StepDrawWelcome => DrawWelcome(s)
    case StepSendWelcome(ciphertext) => SendWelcome(s, ciphertext)
    case StepOpenFound => OpenFound(s)
    case StepLookupAgain => LookupAgain(s)
    case StepAcceptMessage => AcceptMessage(s)
    case StepDeliver => Deliver(s)
    case StepTouch => Touch(s)
    case StepUdpFail => s.(udp := UdpDown)
    case StepReadTun(packet) => ReadTun(s, packet)
    case StepDrawData => DrawData(s)
    case StepSendData(ciphertext) => SendData(s, ciphertext)
    case StepTunFail => s.(tun := TunDown)
    case StepExpire(now) => ExpirePeers(s, now)
    case StepTick(clock) => s.(clock := clock)
    case StepHello(random, ciphertext) => Hello(s, random, ciphertext)
    case StepFinishHandshake(c, packet) => FinishHandshake(s, c, packet)
    case StepDrawTun(c, packet) => DrawTun(s, c, packet)
    case StepSendTun(c, ciphertext) => SendTun(s, c, ciphertext)
    case StepDrawPing(c) => DrawPing(s, c)
    case StepSendPing(c, ciphertext) => SendPing(s, c, ciphertext)
    case StepReceive(c, packet) => Receive(s, c, packet)
    case StepDeliverLink(c) => DeliverLink(s, c)
  }

  /** Runs a schedule from the initial state; None if some step is not enabled when its turn comes. */
  function Execute(network: Network, steps: seq<Step>): Option<State>
  {
    if steps == [] then Some(Init(network))
    else
      match Execute(network, steps[..|steps| - 1])
      case None => None
      case Some(s) => if Enabled(s, steps[|steps| - 1]) then Some(Apply(s, steps[|steps| - 1])) else None
  }
}
