/** Sealed packets: EncodePacket/DecodePacket of internal/protocol/codec.go and internal/protocol/handshake_codec.go. */
module PacketCodec {
  import opened Bytes
  import opened Digits
  import opened Codec
  import opened Aead

  const PREFIX_LEN: nat := HEADER_LEN + RANDOM_LEN

  /** The ciphertext of an n-byte plaintext carries a 16-byte tag. */
  predicate Tagged(plain: seq<byte>, ciphertext: seq<byte>)
  {
    |ciphertext| == |plain| + TAG_LEN
  }

  // ---- DATA and KEEPALIVE ----

  function EncodePacket(key: Key, d: Direction, m: Message, ciphertext: seq<byte>): Result<Sealed>
  {
    match Encode(m)
    case Err(e) => Err(e)
    case Ok(packet) => Ok(Sealed(key, Nonce(d, m.header.sequence), packet[..HEADER_LEN], packet[HEADER_LEN..],
      ciphertext))
  }

  /** Where in the log the packet's ciphertext was sealed. */
  function PacketSource(log: seq<Sealed>, key: Key, d: Direction, buf: seq<byte>): (r: Option<nat>)
    requires |buf| >= HEADER_LEN
    ensures r.Some? ==> r.value < |log|
  {
    FindSeal(log, key, Nonce(d, PeekHeader(buf).value.sequence), buf[..HEADER_LEN], buf[HEADER_LEN..])
  }

  function DecodePacket(log: seq<Sealed>, key: Key, d: Direction, buf: seq<byte>): Result<Message>
  {
    if |buf| < HEADER_LEN then Err(ShortBuffer)
    else match PacketSource(log, key, d, buf)
      case None => Err(AuthenticationFailed)
      case Some(i) => Decode(buf[..HEADER_LEN] + log[i].plain)
  }

  /** What a successful decode tells: the log holds exactly this message, sealed under this key and direction. */
  lemma DecodedWasSealed(log: seq<Sealed>, key: Key, d: Direction, buf: seq<byte>)
    requires DecodePacket(log, key, d, buf).Ok?
    ensures |buf| >= HEADER_LEN && PacketSource(log, key, d, buf).Some?
    ensures
      var m, s := DecodePacket(log, key, d, buf).value, log[PacketSource(log, key, d, buf).value];
      && PeekHeader(buf) == Ok(m.header) && m.header.version == PROTOCOL_VERSION && ValidType(m.header.kind)
      && s.key == key && s.nonce == Nonce(d, m.header.sequence) && s.aad == HeaderBytes(m.header)
         && s.plain == m.payload
      && Wire(s) == buf
  {
    PeekWrites(buf);
    var h := PeekHeader(buf).value;
    var plain := log[PacketSource(log, key, d, buf).value].plain;
    PeekReads(h, plain);
    assert (buf[..HEADER_LEN] + plain)[HEADER_LEN..] == plain;
    assert buf == buf[..HEADER_LEN] + buf[HEADER_LEN..];
  }

  /** A packet sealed at any earlier point decodes to its message, in the same direction. */
  lemma DecodeInvertsSeal(log: seq<Sealed>, i: nat, key: Key, d: Direction, m: Message, ciphertext: seq<byte>)
    requires Decryptable(log) && i < |log| && EncodePacket(key, d, m, ciphertext) == Ok(log[i])
    ensures DecodePacket(log, key, d, Wire(log[i])) == Ok(m.(header := m.header.(version := PROTOCOL_VERSION)))
  {
    var h := m.header.(version := PROTOCOL_VERSION);
    var buf := Wire(log[i]);
    PeekReads(h, m.payload);
    PeekReads(h, ciphertext);
    assert Encode(m).value[..HEADER_LEN] == HeaderBytes(h) && Encode(m).value[HEADER_LEN..] == m.payload;
    assert buf[..HEADER_LEN] == HeaderBytes(h) && buf[HEADER_LEN..] == ciphertext;
    OpenInvertsSeal(log, i);
    assert (HeaderBytes(h) + m.payload)[HEADER_LEN..] == m.payload;
  }

  /** The MTU budget: a sealed packet is at most 1472 bytes, and 1500 with the outer IPv4 and UDP headers. */
  lemma PacketFits(key: Key, d: Direction, m: Message, ciphertext: seq<byte>)
    requires Tagged(m.payload, ciphertext) && EncodePacket(key, d, m, ciphertext).Ok?
    ensures |Wire(EncodePacket(key, d, m, ciphertext).value)| == HEADER_LEN + |m.payload| + TAG_LEN <= 1472
    ensures |Wire(EncodePacket(key, d, m, ciphertext).value)| + IPV4_HEADER_LEN + UDP_HEADER_LEN <= OUTER_MTU
    ensures |m.payload| == MAX_PAYLOAD ==>
              |Wire(EncodePacket(key, d, m, ciphertext).value)| + IPV4_HEADER_LEN + UDP_HEADER_LEN == OUTER_MTU
  {
    assert |Encode(m).value[..HEADER_LEN]| == HEADER_LEN;
  }

  // ---- ALOHA and WELCOME: the header and a random are the associated data ----

  function EncodeHandshake(key: Key, d: Direction, kind: byte, m: Message, random: Random, ciphertext: seq<byte>)
    : Result<Sealed>
  {
    if m.header.kind != kind then Err(InvalidType)
    else match Encode(m)
      case Err(e) => Err(e)
      case Ok(packet) =>
        Ok(Sealed(key, Nonce(d, m.header.sequence), packet[..HEADER_LEN] + random, packet[HEADER_LEN..], ciphertext))
  }

  function EncodeAloha(key: Key, m: Message, clientRandom: Random, ciphertext: seq<byte>): Result<Sealed>
  {
    EncodeHandshake(key, ClientToServer, ALOHA, m, clientRandom, ciphertext)
  }

  function EncodeWelcome(key: Key, m: Message, serverRandom: Random, ciphertext: seq<byte>): Result<Sealed>
  {
    EncodeHandshake(key, ServerToClient, WELCOME, m, serverRandom, ciphertext)
  }

  function RandomOf(packet: seq<byte>): Random
    requires |packet| >= PREFIX_LEN
  {
    packet[HEADER_LEN..PREFIX_LEN]
  }

  function HandshakeSource(log: seq<Sealed>, key: Key, d: Direction, packet: seq<byte>): (r: Option<nat>)
    requires |packet| >= PREFIX_LEN
    ensures r.Some? ==> r.value < |log|
  {
    FindSeal(log, key, Nonce(d, PeekHeader(packet).value.sequence), packet[..PREFIX_LEN], packet[PREFIX_LEN..])
  }

  function OpenHandshake(log: seq<Sealed>, key: Key, d: Direction, packet: seq<byte>): Result<Message>
    requires |packet| >= PREFIX_LEN
  {
    match HandshakeSource(log, key, d, packet)
    case None => Err(AuthenticationFailed)
    case Some(i) => Decode(packet[..HEADER_LEN] + log[i].plain)
  }

  function DecodeAloha(log: seq<Sealed>, packet: seq<byte>): Result<(Message, Random)>
  {
    if |packet| < PREFIX_LEN + TAG_LEN then Err(ShortBuffer)
    else
      var header := PeekHeader(packet).value;
      if header.version != PROTOCOL_VERSION then Err(BadVersion)
      else if header.kind != ALOHA then Err(InvalidType)
      else if header.peerID != 0 then Err(PeerIDMustBeZero)
      else if header.sequence == 0 then Err(SequenceMustNotBeZero)
      else
        var clientRandom := RandomOf(packet);
        match OpenHandshake(log, AlohaKey(clientRandom), ClientToServer, packet)
        case Err(e) => Err(e)
        case Ok(m) => Ok((m, clientRandom))
  }

  function DecodeWelcome(log: seq<Sealed>, packet: seq<byte>, clientRandom: Random): Result<(Message, Random)>
  {
    if |packet| < PREFIX_LEN + TAG_LEN then Err(ShortBuffer)
    else
      var header := PeekHeader(packet).value;
      if header.version != PROTOCOL_VERSION then Err(BadVersion)
      else if header.kind != WELCOME then Err(InvalidType)
      else if header.peerID == 0 then Err(PeerIDMustNotBeZero)
      else if header.sequence == 0 then Err(SequenceMustNotBeZero)
      else
        var serverRandom := RandomOf(packet);
        match OpenHandshake(log, WelcomeKey(clientRandom, serverRandom), ServerToClient, packet)
        case Err(e) => Err(e)
        case Ok(m) => Ok((m, serverRandom))
  }

  lemma {:induction false} ZeroIff(b: seq<byte>)
    ensures FromBigEndian(b) == 0 <==> forall i :: 0 <= i < |b| ==> b[i] == 0
  {
    if b != [] {
      ZeroIff(b[..|b| - 1]);
      assert forall i :: 0 <= i < |b| - 1 ==> b[..|b| - 1][i] == b[i];
    }
  }

  /** Why an ALOHA is refused before its cipher is tried, by its bytes and in this order: shorter than 52 bytes, version
      not 1, type not 1, a peer id, no sequence. */
  lemma AlohaGuards(log: seq<Sealed>, packet: seq<byte>)
    ensures
      var r := DecodeAloha(log, packet);
      if |packet| < 52 then r == Err(ShortBuffer)
      else if packet[0] != 1 then r == Err(BadVersion)
      else if packet[1] != 1 then r == Err(InvalidType)
      else if exists i :: 4 <= i < 12 && packet[i] != 0 then r == Err(PeerIDMustBeZero)
      else if forall i :: 12 <= i < 20 ==> packet[i] == 0 then r == Err(SequenceMustNotBeZero)
      else r == match OpenHandshake(log, AlohaKey(packet[20..36]), ClientToServer, packet)
                case Err(e) => Err(e)
                case Ok(m) => Ok((m, packet[20..36]))
  {
    hide FromBigEndian, OpenHandshake;
    if |packet| >= 52 {
      NumbersZeroIff(packet);
    }
  }

  /** The same for WELCOME: type not 2, no peer id, no sequence. */
  lemma WelcomeGuards(log: seq<Sealed>, packet: seq<byte>, client: Random)
    ensures
      var r := DecodeWelcome(log, packet, client);
      if |packet| < 52 then r == Err(ShortBuffer)
      else if packet[0] != 1 then r == Err(BadVersion)
      else if packet[1] != 2 then r == Err(InvalidType)
      else if forall i :: 4 <= i < 12 ==> packet[i] == 0 then r == Err(PeerIDMustNotBeZero)
      else if forall i :: 12 <= i < 20 ==> packet[i] == 0 then r == Err(SequenceMustNotBeZero)
      else r == match OpenHandshake(log, WelcomeKey(client, packet[20..36]), ServerToClient, packet)
                case Err(e) => Err(e)
                case Ok(m) => Ok((m, packet[20..36]))
  {
    hide FromBigEndian, OpenHandshake;
    if |packet| >= 52 {
      NumbersZeroIff(packet);
    }
  }

  lemma NumbersZeroIff(packet: seq<byte>)
    requires |packet| >= 20
    ensures PeekHeader(packet).value.peerID == 0 <==> forall i :: 4 <= i < 12 ==> packet[i] == 0
    ensures PeekHeader(packet).value.sequence == 0 <==> forall i :: 12 <= i < 20 ==> packet[i] == 0
  {
    hide FromBigEndian;
    var id, sequence := packet[4..12], packet[12..20];
    ZeroIff(id);
    ZeroIff(sequence);
    assert forall i :: 0 <= i < 8 ==> id[i] == packet[i + 4] && sequence[i] == packet[i + 12];
    assert forall i :: 4 <= i < 12 ==> packet[i] == id[i - 4];
    assert forall i :: 12 <= i < 20 ==> packet[i] == sequence[i - 12];
  }

  /** What a successful handshake decode tells about the log. */
  lemma OpenedWasSealed(log: seq<Sealed>, key: Key, d: Direction, packet: seq<byte>)
    requires |packet| >= PREFIX_LEN && OpenHandshake(log, key, d, packet).Ok?
    ensures HandshakeSource(log, key, d, packet).Some?
    ensures
      var m, s := OpenHandshake(log, key, d, packet).value, log[HandshakeSource(log, key, d, packet).value];
      && PeekHeader(packet) == Ok(m.header)
      && s.key == key && s.nonce == Nonce(d, m.header.sequence)
      && s.aad == HeaderBytes(m.header) + RandomOf(packet) && s.plain == m.payload
  {
    PeekWrites(packet);
    var h := PeekHeader(packet).value;
    var plain := log[HandshakeSource(log, key, d, packet).value].plain;
    PeekReads(h, plain);
    assert (packet[..HEADER_LEN] + plain)[HEADER_LEN..] == plain;
    assert packet[..PREFIX_LEN] == packet[..HEADER_LEN] + packet[HEADER_LEN..PREFIX_LEN];
  }

  /** The bytes of a sealed handshake packet carry its header, random and ciphertext at fixed offsets. */
  lemma HandshakeLayout(key: Key, d: Direction, kind: byte, m: Message, random: Random, ciphertext: seq<byte>)
    requires EncodeHandshake(key, d, kind, m, random, ciphertext).Ok?
    ensures
      var s := EncodeHandshake(key, d, kind, m, random, ciphertext).value;
      var h := m.header.(version := PROTOCOL_VERSION);
      && s.aad == HeaderBytes(h) + random && s.plain == m.payload
      && |Wire(s)| == PREFIX_LEN + |ciphertext| && PeekHeader(Wire(s)) == Ok(h) && RandomOf(Wire(s)) == random
      && Wire(s)[..HEADER_LEN] == HeaderBytes(h) && Wire(s)[..PREFIX_LEN] == s.aad
         && Wire(s)[PREFIX_LEN..] == ciphertext
      && Decode(HeaderBytes(h) + m.payload) == Ok(m.(header := h))
  {
    var h := m.header.(version := PROTOCOL_VERSION);
    var s := EncodeHandshake(key, d, kind, m, random, ciphertext).value;
    DecodeInvertsEncode(m);
    assert Encode(m).value[..HEADER_LEN] == HeaderBytes(h) && Encode(m).value[HEADER_LEN..] == m.payload;
    assert Wire(s) == HeaderBytes(h) + (random + ciphertext);
    PeekReads(h, random + ciphertext);
  }

  lemma HandshakeOpens(log: seq<Sealed>, i: nat, key: Key, d: Direction, kind: byte, m: Message, random: Random,
                       ciphertext: seq<byte>)
    requires Decryptable(log) && i < |log|
    requires EncodeHandshake(key, d, kind, m, random, ciphertext) == Ok(log[i])
    ensures |Wire(log[i])| >= PREFIX_LEN
    ensures OpenHandshake(log, key, d, Wire(log[i])) == Ok(m.(header := m.header.(version := PROTOCOL_VERSION)))
  {
    HandshakeLayout(key, d, kind, m, random, ciphertext);
    OpenInvertsSeal(log, i);
  }

  /** An encoded ALOHA decodes again exactly when its peer id is zero and its sequence is not. */
  lemma AlohaRoundTrip(log: seq<Sealed>, i: nat, m: Message, random: Random, ciphertext: seq<byte>)
    requires Decryptable(log) && i < |log| && Tagged(m.payload, ciphertext)
    requires EncodeAloha(AlohaKey(random), m, random, ciphertext) == Ok(log[i])
    ensures DecodeAloha(log, Wire(log[i])).Ok? <==> m.header.peerID == 0 && m.header.sequence != 0
    ensures DecodeAloha(log, Wire(log[i])).Ok? ==>
              DecodeAloha(log, Wire(log[i])).value == (m.(header := m.header.(version := PROTOCOL_VERSION)), random)
  {
    HandshakeLayout(AlohaKey(random), ClientToServer, ALOHA, m, random, ciphertext);
    HandshakeOpens(log, i, AlohaKey(random), ClientToServer, ALOHA, m, random, ciphertext);
  }

  /** An encoded WELCOME decodes again exactly when neither its peer id nor its sequence is zero. */
  lemma WelcomeRoundTrip(log: seq<Sealed>, i: nat, m: Message, client: Random, server: Random, ciphertext: seq<byte>)
    requires Decryptable(log) && i < |log| && Tagged(m.payload, ciphertext)
    requires EncodeWelcome(WelcomeKey(client, server), m, server, ciphertext) == Ok(log[i])
    ensures DecodeWelcome(log, Wire(log[i]), client).Ok? <==> m.header.peerID != 0 && m.header.sequence != 0
    ensures DecodeWelcome(log, Wire(log[i]), client).Ok? ==>
              DecodeWelcome(log, Wire(log[i]),
                client).value == (m.(header := m.header.(version := PROTOCOL_VERSION)), server)
  {
    var key := WelcomeKey(client, server);
    HandshakeLayout(key, ServerToClient, WELCOME, m, server, ciphertext);
    HandshakeOpens(log, i, key, ServerToClient, WELCOME, m, server, ciphertext);
  }

  // ---- WELCOME payload ----

  const WELCOME_PAYLOAD_LEN: nat := 6

  function WelcomePayload(tunnelIP: uint32, mtu: uint16): (b: seq<byte>)
    ensures |b| == WELCOME_PAYLOAD_LEN
  {
    BigEndian(tunnelIP, 4) + BigEndian(mtu, 2)
  }

  function ReadWelcomePayload(b: seq<byte>): Option<(uint32, uint16)>
  {
    if |b| != WELCOME_PAYLOAD_LEN then None else Some((ReadUint32(b[0..4]), ReadUint16(b[4..6])))
  }

  lemma WelcomePayloadReads(tunnelIP: uint32, mtu: uint16)
    ensures ReadWelcomePayload(WelcomePayload(tunnelIP, mtu)) == Some((tunnelIP, mtu))
    ensures MostSignificantFirst(WelcomePayload(tunnelIP, mtu)[0..4], tunnelIP)
    ensures MostSignificantFirst(WelcomePayload(tunnelIP, mtu)[4..6], mtu)
  {
    hide MostSignificantFirst;
    Widths();
    BigEndianDigits(tunnelIP, 4);
    BigEndianDigits(mtu, 2);
    BigEndianReads(tunnelIP, 4);
    BigEndianReads(mtu, 2);
    var b := WelcomePayload(tunnelIP, mtu);
    assert b[0..4] == BigEndian(tunnelIP, 4) && b[4..6] == BigEndian(mtu, 2);
  }

  // ---- The packet functions, filling buffers in place ----

  method SealPacket(aead: IdealAead, key: Key, d: Direction, m: Message, ciphertext: seq<byte>)
    returns (r: Result<array<byte>>)
    modifies aead
    ensures match EncodePacket(key, d, m, ciphertext)
      case Err(e) => r == Err(e) && aead.log == old(aead.log)
      case Ok(s) => r.Ok? && fresh(r.value) && r.value[..] == Wire(s) && aead.log == old(aead.log) + [s]
  {
    var encoded := EncodeBuffer(m);
    if encoded.Err? {
      return Err(encoded.error);
    }
    var packet := encoded.value;
    aead.Seal(key, d, m.header.sequence, packet[..HEADER_LEN], packet[HEADER_LEN..], ciphertext);
    var sealedPacket := Concat(packet[..HEADER_LEN], ciphertext);
    return Ok(sealedPacket);
  }

  method OpenPacket(aead: IdealAead, key: Key, d: Direction, buf: array<byte>) returns (r: Result<Message>)
    ensures r == DecodePacket(aead.log, key, d, buf[..])
  {
    if buf.Length < HEADER_LEN {
      return Err(ShortBuffer);
    }
    var header := PeekHeader(buf[..HEADER_LEN]).value;
    assert buf[..][..HEADER_LEN] == buf[..HEADER_LEN] && buf[..][HEADER_LEN..] == buf[HEADER_LEN..];
    SamePrefix(buf[..], buf[..HEADER_LEN]);
    var plain := Open(aead.log, key, Nonce(d, header.sequence), buf[..HEADER_LEN], buf[HEADER_LEN..]);
    if plain.None? {
      return Err(AuthenticationFailed);
    }
    var plainPacket := Concat(buf[..HEADER_LEN], plain.value);
    r := DecodeBuffer(plainPacket);
  }

  lemma SamePrefix(a: seq<byte>, b: seq<byte>)
    requires |a| >= HEADER_LEN && |b| >= HEADER_LEN && a[..HEADER_LEN] == b[..HEADER_LEN]
    ensures PeekHeader(a) == PeekHeader(b)
  {
    assert forall i :: 0 <= i < HEADER_LEN ==> a[i] == a[..HEADER_LEN][i] && b[i] == b[..HEADER_LEN][i];
    assert a[4..12] == b[4..12] && a[12..20] == b[12..20];
  }

  /** EncodeAlohaPacket and EncodeWelcomePacket differ only in the type and direction. */
  method SealHandshake(aead: IdealAead, key: Key, d: Direction, kind: byte, m: Message, random: Random,
                       ciphertext: seq<byte>) returns (r: Result<array<byte>>)
    modifies aead
    ensures match EncodeHandshake(key, d, kind, m, random, ciphertext)
      case Err(e) => r == Err(e) && aead.log == old(aead.log)
      case Ok(s) => r.Ok? && fresh(r.value) && r.value[..] == Wire(s) && aead.log == old(aead.log) + [s]
  {
    if m.header.kind != kind {
      return Err(InvalidType);
    }
    var encoded := EncodeBuffer(m);
    if encoded.Err? {
      return Err(encoded.error);
    }
    var plainPacket := encoded.value;
    var aad := Concat(plainPacket[..HEADER_LEN], random);
    aead.Seal(key, d, m.header.sequence, aad[..], plainPacket[HEADER_LEN..], ciphertext);
    var packet := Concat(aad[..], ciphertext);
    return Ok(packet);
  }

  method OpenAloha(aead: IdealAead, packet: array<byte>) returns (r: Result<(Message, Random)>)
    ensures r == DecodeAloha(aead.log, packet[..])
  {
    if packet.Length < PREFIX_LEN + TAG_LEN {
      return Err(ShortBuffer);
    }
    var header := PeekHeader(packet[..]).value;
    if header.version != PROTOCOL_VERSION {
      return Err(BadVersion);
    }
    if header.kind != ALOHA {
      return Err(InvalidType);
    }
    if header.peerID != 0 {
      return Err(PeerIDMustBeZero);
    }
    if header.sequence == 0 {
      return Err(SequenceMustNotBeZero);
    }
    var clientRandom: Random := packet[HEADER_LEN..PREFIX_LEN];
    assert packet[..][HEADER_LEN..PREFIX_LEN] == packet[HEADER_LEN..PREFIX_LEN];
    var message := OpenHandshakeBuffer(aead, AlohaKey(clientRandom), ClientToServer, header, packet);
    if message.Err? {
      return Err(message.error);
    }
    return Ok((message.value, clientRandom));
  }

  method OpenWelcome(aead: IdealAead, packet: array<byte>, clientRandom: Random) returns (r: Result<(Message, Random)>)
    ensures r == DecodeWelcome(aead.log, packet[..], clientRandom)
  {
    if packet.Length < PREFIX_LEN + TAG_LEN {
      return Err(ShortBuffer);
    }
    var header := PeekHeader(packet[..]).value;
    if header.version != PROTOCOL_VERSION {
      return Err(BadVersion);
    }
    if header.kind != WELCOME {
      return Err(InvalidType);
    }
    if header.peerID == 0 {
      return Err(PeerIDMustNotBeZero);
    }
    if header.sequence == 0 {
      return Err(SequenceMustNotBeZero);
    }
    var serverRandom: Random := packet[HEADER_LEN..PREFIX_LEN];
    assert packet[..][HEADER_LEN..PREFIX_LEN] == packet[HEADER_LEN..PREFIX_LEN];
    var message := OpenHandshakeBuffer(aead, WelcomeKey(clientRandom, serverRandom), ServerToClient, header, packet);
    if message.Err? {
      return Err(message.error);
    }
    return Ok((message.value, serverRandom));
  }

  method OpenHandshakeBuffer(aead: IdealAead, key: Key, d: Direction, header: Header, packet: array<byte>)
    returns (r: Result<Message>)
    requires packet.Length >= PREFIX_LEN && PeekHeader(packet[..]) == Ok(header)
    ensures r == OpenHandshake(aead.log, key, d, packet[..])
  {
    assert packet[..][..PREFIX_LEN] == packet[..PREFIX_LEN] && packet[..][PREFIX_LEN..] == packet[PREFIX_LEN..];
    assert packet[..][..HEADER_LEN] == packet[..HEADER_LEN];
    var plain := Open(aead.log, key, Nonce(d, header.sequence), packet[..PREFIX_LEN], packet[PREFIX_LEN..]);
    if plain.None? {
      return Err(AuthenticationFailed);
    }
    var plainPacket := Concat(packet[..HEADER_LEN], plain.value);
    r := DecodeBuffer(plainPacket);
  }
}
