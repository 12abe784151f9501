/** The client's half as an object: internal/client/handshake.go and internal/client/session.go.
    Each method is one round of a loop; its contract names the steps of module Session that the round performs. */
module ClientSession {
  import opened Bytes
  import opened Codec
  import opened Aead
  import opened PacketCodec
  import opened ReplayWindow
  import opened Session
  import opened SessionSteps

  function Payloads(ds: seq<Delivery>): (r: seq<seq<byte>>)
    ensures |r| == |ds|
    ensures forall i :: 0 <= i < |ds| ==> r[i] == ds[i].payload
  {
    seq(|ds|, i requires 0 <= i < |ds| => ds[i].payload)
  }

  /** DeliverLink, when there is something to deliver. */
  function Drained(link: Link): Link
  {
    if link.inbox.None? then link else link.(delivered := link.delivered + [link.inbox.value], inbox := None)
  }

  class ClientSession {
    const peerID: uint64
    const cipher: Key
    const aead: IdealAead
    const serverReplayWindow: SlidingWindow
    var clientSendSequence: uint64
    /** What was written to the TUN device and to the connection. */
    var tun: seq<seq<byte>>
    var conn: seq<seq<byte>>
    /** The session as module Session sees it. */
    ghost var link: Link

    ghost predicate Valid()
      reads this, serverReplayWindow
    {
      && link.peerID == peerID && link.key == cipher && clientSendSequence == Counter(link.sends)
      && link.window == serverReplayWindow.View() && link.inbox.None? && tun == Payloads(link.delivered)
    }

    /** The end of handshake(): the session starts with sequence 1 used in both directions. */
    constructor (aead: IdealAead, peerID: uint64, tunnelIP: uint32, mtu: uint16, cipher: Key, window: SlidingWindow,
                 ghost serverRandom: Random)
      requires window.View() == Advance(EMPTY_WINDOW, 1).0
      ensures Valid() && this.aead == aead && this.serverReplayWindow == window && tun == [] && conn == []
      ensures link == Link(peerID, tunnelIP, mtu, cipher, 1, Advance(EMPTY_WINDOW, 1).0, None, None, None, [],
              serverRandom, {1})
    {
      this.aead, this.peerID, this.cipher, this.serverReplayWindow := aead, peerID, cipher, window;
      clientSendSequence, tun, conn := 1, [], [];
      link := Link(peerID, tunnelIP, mtu, cipher, 1, Advance(EMPTY_WINDOW, 1).0, None, None, None, [], serverRandom,
        {1});
    }

    method NextSendSequence() returns (sequence: uint64)
      requires Valid()
      modifies this`clientSendSequence, this`link
      ensures Valid() && link == old(link).(sends := old(link.sends) + 1) && sequence == Counter(link.sends)
    {
      clientSendSequence := (clientSendSequence + 1) % TWO_64;
      link := link.(sends := link.sends + 1);
      NextCount(old(link.sends));
      return clientSendSequence;
    }

    method AcceptServerSequence(sequence: uint64) returns (v: Verdict)
      requires Valid()
      modifies this`link, serverReplayWindow
      ensures Valid() && (link.window, v) == Advance(old(link.window), sequence)
      ensures link == old(link).(window := link.window)
    {
      v := serverReplayWindow.Accept(sequence);
      link := link.(window := serverReplayWindow.View());
    }

    /** One round of udpToTun: Receive, then DeliverLink. */
    method UdpToTun(buf: array<byte>)
      requires Valid()
      modifies this`tun, this`link, serverReplayWindow
      ensures Valid() && link == Drained(ReceiveLink(aead.log, old(link), buf[..]))
      ensures match DecodePacket(aead.log, cipher, ServerToClient, buf[..])
        case Err(_) => tun == old(tun)
        case Ok(m) =>
          if m.header.kind == DATA && Advance(old(link.window), m.header.sequence).1 == Accepted
          then tun == old(tun) + [m.payload] else tun == old(tun)
    {
      var r := OpenPacket(aead, cipher, ServerToClient, buf);
      if r.Err? {
        return;
      }
      var packet := r.value;
      if packet.header.kind != DATA {
        return;
      }
      var v := AcceptServerSequence(packet.header.sequence);
      if v != Accepted {
        return;
      }
      tun := tun + [packet.payload];
      ghost var source := PacketSource(aead.log, cipher, ServerToClient, buf[..]).GetOr(0);
      ghost var d := Delivery(packet.header.sequence, packet.payload, source);
      link := link.(accepted := link.accepted + {packet.header.sequence}, delivered := link.delivered + [d]);
    }

    /** One round of tunToUdp: DrawTun, then SendTun. The packet on the wire opens to the payload under the
        next number. */
    method TunToUdp(payload: seq<byte>, ciphertext: seq<byte>) returns (r: Result<()>)
      requires Valid() && 0 < |payload| <= MAX_PAYLOAD && Tagged(payload, ciphertext)
      modifies this`clientSendSequence, this`conn, this`link, aead
      ensures Valid() && r.Ok? && link == DrawTunLink(old(link), payload).(tun := old(link.tun))
      ensures Sent(DATA, Counter(old(link.sends) + 1), payload, ciphertext, old(aead.log), aead.log, old(conn), conn)
    {
      var sequence := NextSendSequence();
      PacketLayout(cipher, ClientToServer, DATA, peerID, sequence, payload, ciphertext);
      r := Send(MessageOf(DATA, peerID, sequence, payload), ciphertext);
    }

    /** One tick of keepAliveLoop: DrawPing, then SendPing. */
    method KeepAlive(ciphertext: seq<byte>) returns (r: Result<()>)
      requires Valid() && |ciphertext| == TAG_LEN
      modifies this`clientSendSequence, this`conn, this`link, aead
      ensures Valid() && r.Ok? && link == DrawPingLink(old(link)).(ping := old(link.ping))
      ensures Sent(KEEPALIVE, Counter(old(link.sends) + 1), [], ciphertext, old(aead.log), aead.log, old(conn), conn)
    {
      var sequence := NextSendSequence();
      PacketLayout(cipher, ClientToServer, KEEPALIVE, peerID, sequence, [], ciphertext);
      r := Send(MessageOf(KEEPALIVE, peerID, sequence, []), ciphertext);
    }

    /** EncodePacket and Write, as both send loops do it. */
    method Send(m: Message, ciphertext: seq<byte>) returns (r: Result<()>)
      requires Valid()
      modifies this`conn, aead
      ensures Valid()
      ensures match EncodePacket(cipher, ClientToServer, m, ciphertext)
        case Err(e) => r == Err(e) && aead.log == old(aead.log) && conn == old(conn)
        case Ok(s) => r.Ok? && aead.log == old(aead.log) + [s] && conn == old(conn) + [Wire(s)]
    {
      var packet := SealPacket(aead, cipher, ClientToServer, m, ciphertext);
      if packet.Err? {
        return Err(packet.error);
      }
      conn := conn + [packet.value[..]];
      return Ok(());
    }

    /** Exactly one packet went out; it is the wire form of exactly one new Seal call, under the session key and the
        client's nonce, with the peer id and sequence authenticated. */
    ghost predicate Sent(kind: byte, sequence: uint64, payload: seq<byte>, ciphertext: seq<byte>,
                         log: seq<Sealed>, log': seq<Sealed>, wire: seq<seq<byte>>, wire': seq<seq<byte>>)
    {
      var h := HeaderBytes(Header(PROTOCOL_VERSION, kind, 0, 0, peerID, sequence));
      && log' == log + [Sealed(cipher, Nonce(ClientToServer, sequence), h, payload, ciphertext)]
      && wire' == wire + [h + ciphertext]
    }
  }

  /** The first half of handshake(): ALOHA with peer id 0 and sequence 1, under the key of a fresh random. */
  method SendAloha(aead: IdealAead, random: Random, tag: seq<byte>) returns (packet: Result<array<byte>>)
    requires |tag| == TAG_LEN
    modifies aead
    ensures packet.Ok? && fresh(packet.value)
    ensures
      var h := HeaderBytes(Header(PROTOCOL_VERSION, ALOHA, 0, 0, 0, 1));
      && aead.log == old(aead.log) + [Sealed(AlohaKey(random), Nonce(ClientToServer, 1), h + random, [], tag)]
      && packet.value[..] == h + random + tag
  {
    var m := MessageOf(ALOHA, 0, 1, []);
    HandshakeLayout(AlohaKey(random), ClientToServer, ALOHA, m, random, tag);
    packet := SealHandshake(aead, AlohaKey(random), ClientToServer, ALOHA, m, random, tag);
  }

  /** The second half, on whatever packet the network answers with. */
  method ReceiveWelcome(aead: IdealAead, random: Random, reply: array<byte>) returns (session: Option<ClientSession>)
    ensures session.None? == (Welcomed(aead.log, random, reply[..]) == HandshakeFailed)
    ensures session.Some? ==>
              && fresh(session.value) && fresh(session.value.serverReplayWindow) && session.value.aead == aead
                 && session.value.Valid()
              && Welcomed(aead.log, random, reply[..]) == Established(session.value.link)
  {
    var decoded := OpenWelcome(aead, reply, random);
    if decoded.Err? {
      return None;
    }
    var (message, serverRandom) := decoded.value;
    if message.header.kind != WELCOME || message.header.sequence != 1 {
      return None;
    }
    var serverReplayWindow := new SlidingWindow();
    var v := serverReplayWindow.Accept(message.header.sequence);
    if v != Accepted {
      return None;
    }
    var payload := ReadWelcomePayload(message.payload);
    if payload.None? {
      return None;
    }
    var (tunnelIP, mtu) := payload.value;
    var s := new ClientSession(aead, message.header.peerID, tunnelIP, mtu,
      PeerKey(message.header.peerID, random, serverRandom),
                               serverReplayWindow, serverRandom);
    return Some(s);
  }
}
