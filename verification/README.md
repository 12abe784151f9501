# elevpn verification

A Dafny model of elevpn with machine-checked proofs about it. elevpn tunnels IPv4 packets over UDP: a client sends ALOHA,
the server answers WELCOME with a peer id and a tunnel address, and from then on both ends exchange sealed DATA packets,
each direction numbered by its own counter and guarded by a 64-entry sliding replay window.

Verify with `dafny verify dfyconfig.toml` (Dafny 4.11).

## What is modelled

The session protocol is a step system (`Session.dfy`). A state holds every peer the server ever registered, the three
indexes of its store, the position of each server loop, any number of clients, and the log of every Seal call. A step is
one mutex-protected action with the loop-local work around it: `udpToTun`, `tunToUdp` and `expirePeersLoop` of the server
interleave, and so do `tunToUdp` and `keepAliveLoop` of each client, which share a counter. The network is hostile: every
receive step takes arbitrary bytes, so packets are dropped, duplicated, reordered, replayed and invented at will. A run is
any schedule of enabled steps from the initial state.

- `SessionInvariants.dfy` states what every step keeps, `SessionSteps.dfy` proves it step by step, `SessionSafety.dfy`
  draws the whole-run theorems, `SessionWelcome.dfy` follows the numbers drawn along whole schedules,
  `SessionExpiry.dfy` follows when each peer was last heard of, `SessionTraces.dfy` and `SessionEndToEnd.dfy` follow
  packets from one TUN to the other, and `SessionProgress.dfy` and `SessionDelivery.dfy` show by construction that
  handshakes, deliveries both ways and keepalives do happen (so the safety theorems are not about empty runs).
- The same code is also modelled in its own imperative form: the replay window (`ReplayWindow.SlidingWindow`), the packet
  codecs filling buffers (`Codec.dfy`, `PacketCodec.dfy`), peers and their store (`PeerStore.dfy`), the client session
  (`ClientSession.dfy`) and the server with its handlers (`Server.dfy`). Each method is proved against the pure functions;
  a whole server round is proved to be exactly a sequence of protocol steps, so the whole-run theorems carry over.
- `Aead.dfy` is the cipher: AES-GCM as an ideal AEAD (section 5.2 of RFC 5116) whose Open succeeds only on a sealed
  tuple, HMAC-SHA256 as an injective function of its input, handshake randoms fresh. Which ciphertext Seal returns is
  arbitrary.
- `Route.dfy` and `Manager.dfy` model the transactional routing: `Route.Apply`, its rollback, `Cleanup` and
  `VpnManager`, over a routing table on which every operation may fail, with the trace of every intermediate table, and
  a Route among the manager's other components. `RouteOrder.dfy` gives that trace exactly. `ClientRoute.dfy` models the
  bypass list that the client hands to its Route.
- `Netlink.dfy`, `Nftables.dfy`, `NetlinkReceive.dfy`, `DefaultRoute.dfy` and `DefaultRouteCall.dfy` model the message
  and attribute builders and the offset-walking readers over arbitrary datagrams, any number of them a call.
- The other side of each format is written down on its own, with the numbers of its standard spelled out: inner packets
  as their senders build them (`Ipv4.dfy`), byte order (`Digits.dfy`), a kernel that performs route requests on the
  routing table (`NetlinkRequests.dfy`), a kernel that writes socket dumps and acknowledgements (`NetlinkReplies.dfy`),
  and one that runs the masquerade rule on a packet (`NftablesMeaning.dfy`). The code is proved against them.

## Where code and promise differ

The code is what is modelled; each difference is a proved statement.

- README.en.md:194 rejects every number at or below the last accepted one. The code is a sliding window
  (`ReplayWindow.AdvanceRefines`), as docs/plan.txt:29-33 plans: number 1 is accepted after number 2
  (`ReplayWindow.ReorderedAccepted`).
- "WELCOME has sequence 1" holds exactly when no inner packet for the new address is numbered between setTunnelIP and the
  WELCOME's own draw (`SessionWelcome.WelcomeNumberIsExact`; `SessionWelcome.WelcomeGuard` for the state before the draw).
  Such a packet can come (`SessionProgress.DataCanOvertakeWelcome`). The client then turns its genuine WELCOME down, and
  only then (`SessionWelcome.GenuineWelcomeAcceptedIff`), and its peer never gets a client
  (`SessionWelcome.OvertakenIsLockedOut`).
- A second `setTunnelIP` for one peer leaves a stale key (`PeerIndex.SecondTunnelIPDisagrees`). No run does that.
- A bypass list with a duplicate, or with a destination that already has a route, can never be applied
  (`Route.ApplySucceedsIff`); it is rolled back completely. The client's own list has a duplicate exactly when somebody is
  logged in over SSH from the VPN server's address (`ClientRoute.BypassDistinctIff`, `ClientRoute.ClientRouteAppliesIff`;
  the input is `ClientRoute.ServerOverSSHFails`).
- A peer whose message was just accepted can expire: it is touched only after the write to the TUN
  (`SessionExpiry.AcceptedCanExpire`). Expiry keeps a live peer exactly when a touch, or its registration, lies within the
  timeout (`SessionExpiry.ExpiryOverRuns`).
- One malformed inner packet ends `tunToUdp`, and one client more than the network has addresses ends `udpToTun`; besides
  I/O failures and a peer expiring in the middle of its handshake nothing else does (`SessionEndToEnd.LoopsEndIff`).
- Cleanup after a successful Apply restores the table exactly when the original default route was the remembered gateway
  (`Route.CleanupUndoesApply`); what is left when requests fail is `Route.CleanupAfterApply`.
- The gateway that `recvDefaultRoute` collects is a slice of its receive buffer. The call returns it for every tail of the
  dump with given datagram lengths exactly when each of them ends before that slice (`DefaultRouteCall.GatewayKeptIff`);
  two datagrams that make it answer 0.0.0.0 are in `DefaultRouteCall.GatewayCanBeOverwritten`.
- The inner loop of that call has no end exactly when the attribute list holds an OIF or GATEWAY attribute of less than 4
  bytes or an OIF that does not resolve (`DefaultRoute.InnerLoopForeverIff`); a datagram that does it is in
  `DefaultRouteCall.UnresolvableLoops`. On bytes of any shape it has none exactly when it comes to such an attribute
  (`DefaultRoute.InnerForeverIff`).
- The loop over messages has no end exactly when it comes to a message whose length field is 0 and that does not end the
  walk (`DefaultRoute.OuterForeverIff`): sixteen zero bytes are enough (`DefaultRouteCall.ZeroBytesLoop`).
- The call indexes past its 65536-byte buffer exactly when it comes to a wanted route message whose header ends at the
  buffer's end, or to an attribute whose header or value lies beyond it while the message's length field claims it
  (`DefaultRoute.WalkEndsIff`, `DefaultRoute.OuterPanicsIff`, `DefaultRoute.InnerPanicsIff`); a 32-byte datagram that
  does it is in `DefaultRouteCall.OversizedCrashes`.
- The gateway and the interface of the answer need not come from one route: each is that of the last default route that
  carries one (`DefaultRoute.FieldsComeFrom`). Two routes that get mixed are in `DefaultRouteCall.RoutesGetMixed`; they
  do not when one route is the last for both (`DefaultRoute.OneRouteAnswers`).
- Counters are uint64: nonces are unique below 2^64 draws. Beyond, a run repeats one, and two draws of a client collide
  exactly when a multiple of 2^64 lies between them (`SessionProgress.NoncesRepeatBeyondBound`).

## Model

| member | source | states |
|---|---|---|
| ReplayWindow.AdvanceRefines | internal/protocol/replay_window.go:21-59 | for every uint64: the two fields stay the maximum and the last 64 of the accepted set; Accepted iff positive, new and less than 64 below the maximum; each refusal names its cause and changes nothing |
| ReplayWindow.RefinesDetermines | internal/protocol/replay_window.go:14-19 | the accepted set determines both fields, so the bitmap carries no other information |
| ReplayWindow.FeedRefines | internal/protocol/replay_window.go:21-59 | for every arrival list: no number is accepted twice, and only arrived numbers are |
| ReplayWindow.NothingLost | internal/protocol/replay_window.go:26-56 | a positive stream never reordered by a whole window has each distinct value accepted exactly once |
| ReplayWindow.OrderIrrelevant | internal/protocol/replay_window.go:26-56 | arrival orders and repetitions of one set spanning less than a window end in the same two fields |
| ReplayWindow.ReorderedAccepted | internal/protocol/replay_window.go:44-56 | an input that a strictly increasing rule would refuse: 1 after 2 |
| ReplayWindow.SlidingWindow.Accept | internal/protocol/replay_window.go:21-59 | the in-place update of both fields, tied to the function that refines the set |
| Codec.DecodeInvertsEncode | internal/protocol/codec.go:26-77 | decoding an encoded message returns it, with version set to 1 |
| Codec.EncodeInvertsDecode | internal/protocol/codec.go:26-77 | re-encoding whatever Decode accepts reproduces the buffer byte for byte |
| Codec.DecodeAcceptsEncodings | internal/protocol/codec.go:49-77 | Decode accepts exactly the image of Encode |
| Codec.PeekReads | internal/protocol/codec.go:130-150 | the header written by Encode is read back whatever follows it |
| Codec.PeekWrites | internal/protocol/codec.go:130-150 | every 20-byte prefix is the encoding of the header peeked from it |
| Codec.WireFormat | internal/protocol/codec.go:26-47 | the wire format byte by byte: version 1, types 1 to 4, flags, reserved, peer id and sequence most significant byte first, at most 1436 bytes of payload; Encode accepts exactly these |
| Codec.DecodeAcceptsIff | internal/protocol/codec.go:49-77 | Decode accepts a buffer iff it has 20 to 1456 bytes, version byte 1 and type byte 1 to 4; otherwise which error it is |
| Codec.EncodeBuffer | internal/protocol/codec.go:26-47 | the buffer filled in place is the encoding; the error is the same |
| Codec.DecodeBuffer | internal/protocol/codec.go:49-77 | decoding from a buffer, all error cases included |
| Aead.NonceInjective | internal/protocol/aead.go:115-122 | nonces are equal iff direction and sequence are |
| Aead.NonceLayout | internal/protocol/aead.go:115-122 | the twelve bytes of a nonce: 0 0 0 1 or 0 0 0 2 by direction, then the sequence most significant byte first |
| Aead.KeyInputs | internal/protocol/aead.go:25-59 | what each key is derived from, in order: client random, then server random, and the peer id before both, most significant byte first |
| Aead.PeerKeyInjective | internal/protocol/aead.go:46-59 | peer keys are equal iff peer id and both randoms are |
| Aead.WelcomeKeyInjective | internal/protocol/aead.go:35-44 | WELCOME keys are equal iff both randoms are |
| Aead.KeyKindsDisjoint | internal/protocol/aead.go:25-59 | ALOHA, WELCOME and peer keys never collide |
| Aead.UniqueNoncesDecrypt | internal/protocol/aead.go:127-144 | unique key-nonce pairs make opening well defined for every choice of ciphertexts |
| Aead.OpenInvertsSeal | internal/protocol/aead.go:127-144 | everything sealed opens again after any later Seal calls |
| PacketCodec.DecodedWasSealed | internal/protocol/codec.go:100-128 | a decoded packet was sealed: same key, direction, header as associated data, payload and bytes |
| PacketCodec.DecodeInvertsSeal | internal/protocol/codec.go:79-128 | a packet sealed at any earlier point decodes to its message in the same direction |
| PacketCodec.PacketFits | internal/protocol/message.go:27-36 | every sealed packet is at most 1472 bytes, 1500 with the outer headers |
| PacketCodec.OpenedWasSealed | internal/protocol/handshake_codec.go:85-186 | an opened handshake packet was sealed with its header and random as associated data |
| PacketCodec.AlohaGuards | internal/protocol/handshake_codec.go:85-135 | which ALOHA is refused before its cipher is tried, by its bytes and in this order: under 52 bytes, version, type, a peer id, no sequence; all others go to the cipher of the random in bytes 20 to 35 |
| PacketCodec.WelcomeGuards | internal/protocol/handshake_codec.go:137-186 | the same for WELCOME |
| PacketCodec.AlohaRoundTrip | internal/protocol/handshake_codec.go:11-135 | an encoded ALOHA decodes again iff its peer id is 0 and its sequence is not, and then to itself |
| PacketCodec.WelcomeRoundTrip | internal/protocol/handshake_codec.go:50-186 | an encoded WELCOME decodes again iff neither peer id nor sequence is 0, and then to itself |
| PacketCodec.WelcomePayloadReads | internal/protocol/payload.go:19-49 | tunnel address and MTU survive the WELCOME payload, address first, each most significant byte first |
| PacketCodec.SealPacket | internal/protocol/codec.go:79-98 | the bytes built are the wire form of exactly one new Seal call; on an error nothing is sealed |
| PacketCodec.OpenPacket | internal/protocol/codec.go:100-128 | the buffer version of decoding, short buffers and failed authentication included |
| PacketCodec.SealHandshake | internal/protocol/handshake_codec.go:11-83 | the same for ALOHA and WELCOME, with the random in the associated data and on the wire |
| PacketCodec.OpenAloha | internal/protocol/handshake_codec.go:85-135 | the guards in the source's order, then the authenticated message and random |
| PacketCodec.OpenWelcome | internal/protocol/handshake_codec.go:137-186 | the same for WELCOME under the client's own random |
| PeerIndex.InsertAgrees | internal/server/peer_store.go:32-56 | registering keeps the three indexes describing the same live peers |
| PeerIndex.SetTunnelIPAgrees | internal/server/peer_store.go:82-103 | so does a peer's first tunnel address |
| PeerIndex.SecondTunnelIPDisagrees | internal/server/peer_store.go:82-103 | a second address never does: it leaves the first key behind |
| PeerIndex.RemoveIsRestrict | internal/server/peer_store.go:119-125 | deleting the dead peers' own keys removes their entries and nobody else's, unset addresses included |
| PeerIndex.LookupIsScan | internal/server/peer_store.go:58-80 | lookup by random or address equals a scan of byID |
| PeerIndex.LivePeersDistinct | internal/server/peer_store.go:13-21 | live peers share no id, random or address |
| PeerStore.Peer.NextSendSequence | internal/server/peer.go:41-47 | the counter is incremented modulo 2^64 and returned |
| PeerStore.Peer.AcceptClientSequence | internal/server/peer.go:49-58 | the peer's own window advances, nothing else changes |
| PeerStore.Store.Register | internal/server/peer_store.go:32-56 | a known random returns its peer unchanged; a new one gets a fresh peer under the next id in two maps |
| PeerStore.Store.SetPeerTunnelIP | internal/server/peer_store.go:82-103 | unknown id and taken address change nothing; otherwise only the address and its key change |
| PeerStore.Store.DeleteExpired | internal/server/peer_store.go:106-129 | for any iteration order of the map being deleted from: all three maps are restricted to unexpired peers, and the count is their number |
| Addressing.AllocateStaysInside | internal/server/handler.go:153-198 | for every prefix 0 to 30: accepted ids are 1 to size-3, the uint32 sum never wraps, the address lies strictly between server and broadcast address |
| Addressing.AllocateKeepsPrefix | internal/server/handler.go:153-198 | the address has the network's own prefix |
| Addressing.AllocateIsBijective | internal/server/handler.go:153-198 | ids and free host addresses correspond one to one |
| Addressing.NetworkFits | internal/server/server.go:32-53 | a normalized network ends below 2^32 and has room for its three reserved addresses |
| Ipv4.DestinationIsRead | internal/server/server.go:371-411 | for every inner packet built from header fields (section 3.1 of RFC 791) and whatever follows: it is unsupported iff its version is not 4, routed to the destination field iff header and total length fit, and malformed otherwise |
| Ipv4.EveryPacketHasHeader | internal/server/server.go:371-374 | every packet of at least 20 bytes is such a header with something after it; shorter ones are malformed |
| Ipv4.DatagramsAreRouted | internal/server/server.go:376-408 | a sender's own datagram, with any options and body and any padding, goes to its destination |
| Ipv4.SmallestPacketIsRouted | internal/server/server.go:406-408 | twenty given bytes from 10.77.0.1 to 10.77.0.2 go to 10.77.0.2 |
| SessionSteps.RegisterKeeps | internal/server/handler.go:24-32 | a replayed, reordered or new ALOHA keeps the whole session invariant; a peer is registered only for an ALOHA some client sealed |
| SessionSteps.RoutePeerKeeps | internal/server/handler.go:49-55 | routing a keyed peer keeps the invariant, peers expired meanwhile included |
| SessionSteps.OpenedIsGenuine | internal/server/server.go:207-230 | whatever the peer's cipher opens was sealed by the one client of that session, as exactly this message |
| SessionSteps.WelcomeIsGenuine | internal/client/handshake.go:61-87 | a WELCOME that opens under the client's random came from the peer registered for it, with its address and MTU |
| SessionSteps.ReceivedIsGenuine | internal/client/session.go:98-110 | a DATA packet the client opens was sealed by its own peer |
| SessionSteps.AllocatedIsFree | internal/server/peer_store.go:94-100 | the address computed for a fresh id is in nobody's use |
| SessionSafety.StepKeeps | internal/server/server.go:176-339 | every step of every loop and client keeps the session invariant |
| SessionSafety.RunKeeps | internal/server/server.go:176-339 | the session invariant holds in every reachable state |
| SessionSafety.NoncesNeverRepeat | internal/protocol/aead.go:115-133 | in every run no two Seal calls share key and nonce, whatever the interleaving of data, keepalive, WELCOME and re-registration |
| SessionProgress.NoncesRepeatBeyondBound | internal/client/session.go:193-199 | why the bound: from every state with an established client there is a run that seals twice under one key and nonce; along it two Seal calls collide iff a multiple of 2^64 draws lies between them |
| SessionSafety.HandshakeAgreement | internal/client/handshake.go:24-102 | an established client has exactly one peer; it was registered for this client's ALOHA and agrees on randoms, key, address and MTU; no other client agrees with it |
| SessionSafety.NoPeerWithoutClient | internal/server/handler.go:24-32 | every registered peer answers an ALOHA that a client really sealed |
| SessionSafety.ServerDeliversAtMostOnce | internal/server/handler.go:113-151 | in every run TUN writes map injectively to DATA sends of the one client in the peer's session, with equal payloads |
| SessionSafety.ClientDeliversAtMostOnce | internal/client/session.go:87-123 | the same from server to client |
| SessionSafety.IndexesAgree | internal/server/peer_store.go:32-129 | in every run the three maps agree, ids lie below nextID, and lookups are scans |
| SessionSafety.ExpiryIsExact | internal/server/server.go:323-339 | in every run expiry removes exactly the live peers whose lastSeen is older than the timeout |
| SessionExpiry.LastSeenIsLastHeard | internal/server/peer.go:67-82 | in every schedule a peer's lastSeen is the clock of its last touch, or of its registration if there was none; no touch of it has a later clock |
| SessionExpiry.ExpiryOverRuns | internal/server/server.go:323-339 | in every bounded run: expiry keeps a live peer iff some touch of it, or its registration, is at most thirty seconds old |
| SessionExpiry.AcceptedCanExpire | internal/server/handler.go:134-149 | from every reachable state with the server reading and the peer silent for too long, there is a run that writes its new message to the TUN and expires it before the touch |
| SessionSafety.RoutableImpliesKeyed | internal/server/server.go:292-296 | a routable peer has its cipher, so a number drawn for DATA is always sealed and the nil-cipher branch never runs |
| SessionSafety.DataGoesToItsDestination | internal/server/server.go:268-298 | every DATA packet holds an inner packet with a complete IPv4 header and is sealed under the key of the only peer whose address is that header's destination field |
| SessionSafety.TunnelIPNeverTaken | internal/server/handler.go:49-55 | the duplicate-address error is unreachable, and "not found" happens exactly when the peer expired in between |
| SessionSafety.PeerIdentityIsStable | internal/server/server.go:207-230 | the peer whose cipher opened a packet and the peer looked up again are the same |
| SessionSafety.LoopsNeverBlocked | internal/server/server.go:176-316 | the enabling conditions of the steps never hold a loop up |
| SessionProgress.HandshakeCompletes | internal/client/handshake.go:24-102 | from every reachable state with the server reading and an address left, a new client can finish its handshake with the next id, its allocated address and MTU 1436 |
| SessionProgress.DataCanOvertakeWelcome | internal/server/handler.go:53-67 | from the same states one inner packet can take number 1 and leave number 2 to WELCOME |
| SessionWelcome.WelcomeNumberIsExact | internal/server/handler.go:53-67 | in every run that has drawn a WELCOME's number exactly one step drew it; the number is one more than the DATA numbers drawn for that peer before, and 1 iff there was none |
| SessionWelcome.WelcomeGuard | internal/server/handler.go:67-67 | before the draw, in every reachable state: number 1 follows iff the peer's counter is 0, iff no step of the schedule drew a DATA number for it |
| SessionWelcome.OneWelcomePerPeer | internal/server/handler.go:28-30 | in every run, replayed ALOHAs included, a peer has at most one WELCOME record |
| SessionWelcome.GenuineWelcomeAcceptedIff | internal/client/handshake.go:61-87 | a client that opens a WELCOME finishes iff no DATA number was drawn for its peer before the step that numbered the WELCOME |
| SessionWelcome.EstablishedWasWelcomed | internal/client/handshake.go:69-72 | in every run the peer of an established client has sealed a WELCOME with number 1 |
| SessionWelcome.OvertakenIsLockedOut | internal/client/handshake.go:69-72 | a peer for which a DATA number was drawn before its WELCOME never shares a session with a client, however the run goes on |
| SessionProgress.WelcomeNeedsSequenceOne | internal/client/handshake.go:61-101 | every other check of the client passes on a WELCOME that opens: only its number decides |
| SessionProgress.DataArrives | internal/server/handler.go:113-151 | from every reachable state with the server reading, an inner packet of a live client can reach the server's TUN unchanged; its peer is then about to be touched |
| SessionProgress.NewNumberAccepted | internal/client/session.go:193-199 | the number a client draws next is always acceptable to its peer's window |
| SessionDelivery.DataReturns | internal/client/session.go:97-121 | the other direction: from every reachable state with tunToUdp reading, an IPv4 packet for the address of a live client that waits for one can reach that client's TUN unchanged, under its peer's next number, and nobody else changes |
| SessionDelivery.NextNumberAccepted | internal/client/session.go:201-210 | the number a peer draws next is always acceptable to its client's window |
| SessionDelivery.PingArrives | internal/server/handler.go:99-111 | from every reachable state with the server reading, the keepalive of a live client, from any address, refreshes its peer and writes nothing; expiry within thirty seconds keeps the peer |
| SessionTraces.SealedWasRead | internal/server/server.go:259-316 | in every schedule each DATA record of the server holds, whole, the packet of the last read of its TUN before it, with no other DATA sealed in between |
| SessionTraces.ReadsInOrder | internal/server/server.go:259-316 | the server seals what it reads in the order of reading, each read at most once |
| SessionTraces.SentWasRead | internal/client/session.go:132-155 | the same for each client's TUN and its DATA records |
| SessionTraces.DrawsInOrder | internal/client/session.go:132-155 | a client seals what it reads in the order of reading, each read at most once |
| SessionEndToEnd.WriteWasReceived | internal/server/handler.go:113-151 | in every schedule each write to the server's TUN is not empty and stems from the last datagram received before it: byte for byte what the source record put on the wire, from the peer's own address, and without another write |
| SessionEndToEnd.AddressIsGreeting | internal/server/peer_store.go:32-56 | a peer's address is, for ever, the one its client's ALOHA came from |
| SessionEndToEnd.ClientGetsWhatServerRead | internal/server/server.go:259-316 | in every run whatever reaches a client's TUN was read whole from the server's TUN, as an IPv4 packet for this client's address; different deliveries stem from different reads |
| SessionEndToEnd.ServerGetsWhatClientRead | internal/client/session.go:132-155 | in every run whatever reaches the server's TUN was read whole from the TUN of the one client of that session; different writes stem from different reads |
| SessionEndToEnd.LoopsEndIff | internal/server/server.go:176-316 | in every reachable state a step ends udpToTun iff its socket fails or a keyed peer gets no address (its id is past the last one, or it expired meanwhile), and ends tunToUdp iff its TUN fails or the inner packet is malformed |
| ClientSession.SendAloha | internal/client/handshake.go:28-52 | ALOHA with peer id 0 and sequence 1 under the key of the fresh random, byte by byte |
| ClientSession.ReceiveWelcome | internal/client/handshake.go:55-101 | a session results iff the protocol step establishes one, with sequence 1 spent in both directions |
| ClientSession.ClientSession.UdpToTun | internal/client/session.go:97-121 | one round is the protocol's receive and delivery: the payload of an opened DATA packet with an acceptable number is appended to the TUN, and every other packet leaves the TUN alone |
| ClientSession.ClientSession.TunToUdp | internal/client/session.go:132-155 | one round draws the next number and sends one packet, the wire form of one new Seal call for the payload |
| ClientSession.ClientSession.KeepAlive | internal/client/session.go:165-186 | the same for an empty KEEPALIVE, from the same counter |
| ClientSession.ClientSession.NextSendSequence | internal/client/session.go:193-199 | the shared counter moves by one and never past its uint64 |
| ClientSession.ClientSession.AcceptServerSequence | internal/client/session.go:201-210 | the server window advances, nothing else changes |
| Server.Server.HandleAloha | internal/server/handler.go:16-97 | on the objects: register, accept, key, address, number and WELCOME are those protocol steps in order, with every error exit |
| Server.Server.HandleMessage | internal/server/handler.go:99-151 | handleData and handleKeepalive are lookup, accept, TUN write and touch of the protocol; nothing is sealed |
| Server.Server.UdpToTun | internal/server/server.go:176-238 | one uninterrupted packet of the loop is exactly its protocol steps; on the objects: a packet that opens refreshes its peer if its number is new, a keepalive from anywhere, non-empty DATA only from the peer's address, and DATA is appended to the TUN; at most one packet is sent, to the sender |
| Server.Server.TunToUdp | internal/server/server.go:259-316 | one inner packet is exactly its protocol steps; on the objects: a single Seal call with this packet as plaintext under the key and next number of the peer that owns the destination, and its wire form sent to that peer's address; otherwise nothing; the loop ends iff the packet is malformed |
| Server.Server.ExpirePeers | internal/server/server.go:323-339 | deleteExpired on the objects is the protocol's expiry step |
| Server.UdpRoundRuns | internal/server/server.go:176-238 | a round in a reachable state is a run, so the whole-run theorems hold of the objects |
| Server.TunRoundRuns | internal/server/server.go:259-316 | the same for tunToUdp |
| Server.PointingAgrees | internal/server/peer_store.go:13-21 | index agreement carries over from positions to peer objects |
| Route.ApplyIsTransactional | internal/vpn/route.go:62-85 | for any list and any faults: a failed Apply leaves the original table plus exactly the host routes whose rollback was reported as failed; a successful one adds every bypass route and tunnels |
| Route.ApplySucceedsIff | internal/vpn/route.go:62-85 | without faults Apply succeeds iff the destinations are distinct and unrouted, and otherwise restores the table |
| Route.ApplyForwards | internal/vpn/route.go:62-85 | where every address goes after Apply, for any faults: on success bypass addresses through the remembered gateway and interface and the unrouted rest into the tunnel; on failure as before, but for the reported ones |
| Route.CleanupForwards | internal/vpn/route.go:44-60 | and after Cleanup: everything without a route of its own through the gateway again, unless restoring failed |
| RouteOrder.ApplyInOrder | internal/vpn/route.go:62-85 | without faults, the exact sequence of tables: routes come one by one, first to last, then the default moves; or after a refusal they go one by one, last to first |
| RouteOrder.CleanupInOrder | internal/vpn/route.go:44-60 | without faults, the default comes back first, then the routes go, last to first |
| Route.DeleteRoutesDeletes | internal/vpn/route.go:51-60 | rollback deletes every added route but those it reports |
| Route.CleanupUndoesApply | internal/vpn/route.go:44-49 | without faults Cleanup restores the table iff the original default was the remembered gateway |
| Route.CleanupAfterApply | internal/vpn/route.go:44-60 | for any faults: either the default could not be restored and nothing changed, or the gateway is the default and exactly the reported host routes stay behind |
| Route.CleanupAgain | internal/vpn/route.go:44-60 | a second Cleanup changes nothing, whatever fails |
| Route.ApplyIsSafe | internal/vpn/route.go:62-85 | at every intermediate table of Apply and its rollback the default never points into the tunnel with a bypass route missing |
| Route.CleanupIsSafe | internal/vpn/route.go:44-60 | the same for Cleanup, whatever fails |
| RouteInManager.FailedApplyAllAroundRoute | internal/vpn/vpn.go:20-31 | for a Route anywhere among components and any faults: what a failed ApplyAll leaves in the table, whoever fails (the Route's own resolve, an add or another component), and the rest of the world restored |
| RouteInManager.RouteRollsBack | internal/client/client.go:105-115 | without faults and with the remembered gateway as default, the original table is back, and stays through the second, deferred Teardown whatever fails there |
| ClientRoute.DetectSSHClientCIDRs | internal/client/route.go:8-30 | the loop with its seen-map lists each address once, in the order of first occurrence; a failed detection gives none |
| ClientRoute.OccurrencesInOrder | internal/client/route.go:17-27 | the list is ordered by first occurrence |
| ClientRoute.BuildBypassCIDRs | internal/client/route.go:32-41 | the server's address and then those |
| ClientRoute.BypassDistinctIff | internal/client/route.go:32-41 | the list has no duplicate iff no SSH session comes from the server's address |
| ClientRoute.ClientRouteAppliesIff | internal/client/route.go:32-41 | without faults the client's routes can be applied iff no SSH session comes from the server's address and none of the addresses has a host route |
| ClientRoute.TunnelSparesServer | internal/client/route.go:32-41 | once applied, the VPN server and everybody with an SSH session are reached through the old gateway, and every address without a host route through the tunnel |
| ClientRoute.ServerOverSSHFails | internal/client/route.go:32-41 | the failing input: with a session from that address Apply fails on every table, and restores it |
| Route.RouteComponent.Resolve | internal/vpn/route.go:103-144 | succeeds iff gateway, both interfaces and every /32 CIDR resolve, and then holds their addresses in order |
| Route.RouteComponent.DeleteHostRoutes | internal/vpn/route.go:51-60 | the backwards loop deletes the added prefix, last first, and collects every error |
| Route.RouteComponent.ApplyRoutes | internal/vpn/route.go:62-85 | the loop with its two rollbacks is the function proved transactional |
| Route.RouteComponent.CleanupRoutes | internal/vpn/route.go:44-49 | the method is the function proved to undo Apply |
| Manager.ApplyPrefixReaches | internal/vpn/vpn.go:20-31 | the components applied are exactly those before the first failure |
| Manager.FailedApplyAllRollsBack | internal/vpn/vpn.go:20-31 | with an atomic failing Apply and undoing Cleanups, a failed ApplyAll ends in the initial world |
| Manager.SecondTeardownStays | internal/vpn/vpn.go:33-43 | the deferred second Teardown stays there when each Cleanup is the identity on it |
| Manager.TeardownCancelsApplyAll | internal/vpn/vpn.go:33-43 | a successful ApplyAll and its Teardown cancel out |
| Manager.VpnManager.ApplyAll | internal/vpn/vpn.go:20-31 | the loop appends exactly the applied prefix and tears down everything held on failure |
| Manager.VpnManager.Teardown | internal/vpn/vpn.go:33-43 | cleans in reverse order and keeps the component list |
| Netlink.BatchSplits | internal/netlink/socket.go:116-126 | any concatenation of 4-aligned messages is split back into the same list |
| Netlink.NlMsgLayout | internal/netlink/socket.go:116-126 | the header byte by byte: length, type, flags, sequence in host order, port 0 |
| Netlink.AttrLayout | internal/netlink/socket.go:135-151 | an attribute byte by byte: unpadded length, type, value, zeros to the next multiple of 4 |
| Netlink.WalkRecovers | internal/netlink/socket.go:135-151 | any attribute list that fits its uint16 lengths is recovered, then the walk goes on with what follows; the buffer is 4-aligned |
| Netlink.PutAttrAppends | internal/netlink/socket.go:135-151 | an append is a concatenation and keeps alignment |
| Netlink.BuildRoutePayload | internal/netlink/route.go:70-90 | the accumulated buffer is the header and exactly the attributes present |
| Netlink.RoutePayloadWalks | internal/netlink/route.go:70-90 | a reader gets back prefix length, main table and every attribute in order |
| Netlink.RouteHeaderLayout | internal/netlink/route.go:120-158 | the twelve bytes of the route header |
| NetlinkRequests.AddHostRouteMeans | internal/netlink/route.go:92-97 | a kernel that reads the request adds exactly the host route of the routing model, through that gateway on that interface |
| NetlinkRequests.DelHostRouteMeans | internal/netlink/route.go:99-104 | deletes exactly that route |
| NetlinkRequests.ReplaceDefaultRouteMeans | internal/netlink/route.go:106-111 | sets the default route straight out of the interface |
| NetlinkRequests.RestoreDefaultRouteMeans | internal/netlink/route.go:113-118 | sets the default route through the gateway |
| Nftables.NestedRoundTrip | internal/netlink/socket.go:135-164 | attributes nested to any depth read back as the same tree; the buffer is 4-aligned |
| Nftables.MasqueradeReads | internal/netlink/nftable.go:41-61 | the one packet splits into its five messages, each attribute and all six rule expressions read back, and the acknowledgements awaited are those of exactly the messages that ask for one |
| Nftables.MasqueradeFits | internal/netlink/nftable.go:100-176 | the expression list fits its attribute for every name and address |
| Nftables.MasqueradePacket | internal/netlink/nftable.go:49-53 | the builders, appending slice by slice, produce that batch |
| Nftables.BuildNewMasqRuleMsg | internal/netlink/nftable.go:100-119 | the rule message built by reassignment is the tree form |
| Nftables.BuildNewChainMsg | internal/netlink/nftable.go:85-98 | the chain message, with its nested hook |
| Nftables.WrapExpr | internal/netlink/nftable.go:171-176 | name and nested data inside one list element |
| NftablesMeaning.MasqueradesIff | internal/netlink/nftable.go:100-176 | the rule as read back from its bytes, run on a packet: it masquerades iff the source address under the mask is the network's and the packet leaves by the named interface |
| NftablesMeaning.NameMatchesIff | internal/netlink/nftable.go:156-165 | an interface matches iff it has the configured name; a name of sixteen bytes or more matches none |
| NftablesMeaning.BatchMeans | internal/netlink/nftable.go:41-119 | the batch makes the table, in it a nat chain on postrouting with priority 100, and in that chain the rule, between begin and end of subsystem 10 |
| NetlinkReceive.RecvAcks | internal/netlink/socket.go:46-101 | the offset walk with its counter and map, on arbitrary datagrams: in bounds, terminating, and equal to reading the messages one by one |
| NetlinkReceive.SuccessMeansAcknowledged | internal/netlink/socket.go:46-101 | success only when every wanted sequence got a zero-errno reply |
| NetlinkReceive.AcknowledgedMeansSuccess | internal/netlink/socket.go:46-101 | on well-formed datagrams without an error reply, always when they did |
| NetlinkReceive.TracksAll | internal/netlink/socket.go:46-62 | the counter reaches the number of wanted sequences iff all are acknowledged |
| NetlinkReplies.AckIsRead | internal/netlink/socket.go:77-94 | a kernel's acknowledgement with any int32 errno is read as exactly that errno, and as an acknowledgement of its sequence iff it is 0 |
| NetlinkReplies.RepliesDecide | internal/netlink/socket.go:46-101 | for any datagrams of such replies the call succeeds iff up to some datagram everything wanted was acknowledged and no reply carried an errno; otherwise it reports an errno that one carried, or a timeout |
| NetlinkReplies.BrokenAcksFail | internal/netlink/socket.go:70-75 | a message whose length does not fit fails the call, even when everything wanted has just been acknowledged |
| NetlinkReceive.RecvEstablished | internal/netlink/inet_diag.go:76-151 | the diag walk on arbitrary datagrams: in bounds, terminating, and equal to reading the messages one by one |
| NetlinkReceive.FinishedIsSelected | internal/netlink/inet_diag.go:76-151 | its result is exactly the filtered remote addresses before the first DONE, in order |
| NetlinkReplies.DumpIsRead | internal/netlink/inet_diag.go:76-151 | for a kernel's socket dump in any number of datagrams up to DONE: the call finishes with exactly the remote addresses of the established IPv4 connections to the port, in order |
| NetlinkReplies.BrokenDumpFails | internal/netlink/inet_diag.go:101-113 | a message whose length does not fit fails the call, whatever was collected before |
| DefaultRoute.InnerLoopForeverIff | internal/netlink/link.go:121-155 | inside the buffer the rounds of the attribute loop never index out of range; they have no end iff the list holds an unusable attribute, and otherwise end with every attribute taken in order |
| DefaultRoute.RepeatsIff | internal/netlink/link.go:130-149 | one round leaves every variable as it was iff the attribute is an OIF or GATEWAY of less than 4 bytes or an OIF that does not resolve |
| DefaultRoute.InnerLoopEnds | internal/netlink/link.go:121-155 | AttrLoop is where the rounds lead: Loops iff there is no end to them, anything else iff they end so |
| DefaultRoute.OuterLoopEnds | internal/netlink/link.go:80-158 | the same for the loop over messages: Loops iff its rounds have no end or the inner loop of one of them has none |
| DefaultRoute.StallsIff | internal/netlink/link.go:80-158 | a round over messages leaves every variable as it was iff the length field is 0 and the message is unwanted, or neither DONE nor ERROR and no route message at the buffer's end |
| DefaultRoute.OuterForeverIff | internal/netlink/link.go:80-158 | for any bytes: the loop over messages has no end iff it comes to such a message |
| DefaultRoute.InnerForeverIff | internal/netlink/link.go:121-155 | for any bytes: the attribute loop has no end iff it comes to an unusable attribute |
| DefaultRoute.InnerPanicsIff | internal/netlink/link.go:121-128 | for any bytes: the attribute loop indexes out of range iff it comes to an attribute whose header, or whose value claimed by both length fields, lies past the buffer |
| DefaultRoute.OuterPanicsIff | internal/netlink/link.go:107-128 | a round over messages indexes out of range iff it is at a wanted route message ending with the buffer, or at a default route whose attributes do |
| DefaultRoute.WalkEndsIff | internal/netlink/link.go:80-158 | for any bytes: the walk has a given end, panic included, iff some round on its way has |
| DefaultRoute.StuckIff | internal/netlink/link.go:130-149 | a list of attributes gets the walk stuck iff one of them is unusable |
| DefaultRoute.GoingIff | internal/netlink/link.go:91-157 | a dump goes on past its messages iff none is DONE, ERROR or a default route with an unusable attribute |
| DefaultRoute.WalkRefines | internal/netlink/link.go:80-158 | on well-formed datagrams the offset walk is the reading of the messages, and never indexes out of range |
| DefaultRoute.FieldsComeFrom | internal/netlink/link.go:61-150 | the gateway is that of the last default route with a gateway, the interface that of the last one with an interface |
| DefaultRoute.OneRouteAnswers | internal/netlink/link.go:61-150 | when both are one route, the answer is what that route says on its own |
| DefaultRoute.ReadAttributes | internal/netlink/link.go:121-155 | the attribute loop over the receive buffer, stale bytes and out-of-range lengths included |
| DefaultRoute.ReadRoutes | internal/netlink/link.go:80-158 | the message loop over the receive buffer |
| DefaultRouteCall.RecvDefaultRoute | internal/netlink/link.go:54-160 | the whole call: datagram after datagram into one buffer that keeps earlier bytes, every way it can end |
| DefaultRouteCall.AnswerIsUsable | internal/netlink/link.go:96-106 | whatever is received, an answer has an interface index, an interface name and a gateway of at least four bytes |
| DefaultRouteCall.DefaultRouteRecovered | internal/netlink/link.go:54-160 | a dump in any number of clean datagrams, whatever comes before its last default route without ending it: if no later datagram reaches the gateway's slice, the call returns the gateway and interface that buildRoutePayload encoded |
| DefaultRouteCall.OneDatagramRecovered | internal/netlink/link.go:54-160 | always, when DONE comes in the route's own datagram |
| DefaultRouteCall.GatewayKeptIff | internal/netlink/link.go:61-64 | for given lengths of the later datagrams: the call is right for all their contents iff each ends before the gateway's slice |
| DefaultRouteCall.GatewayCanBeOverwritten | internal/netlink/link.go:61-150 | two concrete datagrams, from an empty buffer, that turn 10.0.0.1 into 0.0.0.0 |
| DefaultRouteCall.UnresolvableLoops | internal/netlink/link.go:136-142 | a datagram on which the inner loop's rounds, and so the call, have no end |
| DefaultRouteCall.ZeroBytesLoop | internal/netlink/link.go:80-96 | sixteen zero bytes, on which the rounds over messages, and so the call, have no end |
| DefaultRouteCall.OversizedCrashes | internal/netlink/link.go:107-128 | a 32-byte datagram that makes the call slice past its 65536-byte buffer |
| DefaultRouteCall.RoutesGetMixed | internal/netlink/link.go:61-150 | two default routes of one dump answered with the gateway of the first and the interface of the second |

## Left out

- AES, GCM, SHA-256, HMAC and crypto/rand internals: an ideal AEAD, an injective derivation and fresh randoms stand for them.
- Sockets, eventfd, poll, ioctls and internal/tun/tun.go: the TUN is an input and an output log, UDP is the hostile network.
- Contexts, errgroup, tickers and timers: loops are enabled steps, a loop may fail at any moment, time is an arbitrary non-decreasing integer.
- Short writes and write errors: such a write ends the loop, which the failure steps of the model already allow.
- nil addresses, nil peers and nil map entries: no caller produces them, and the branches for them are not modelled.
- Error texts and errors.Join: only the kind of error and the list of causes are kept.
- Peer addresses are IPv4 pairs; the comparison of IPv4 with IPv4-mapped IPv6 addresses is not modelled.
- internal/vpn/forward.go, internal/vpn/netfilter.go, the command line, magefile and infra: wiring.
- CIDR parsing: networks are given as base and prefix, bypass entries as parsed addresses with their prefix length.
- DeleteMasqueradeTable uses the same builders on a shorter batch.
- NftablesMeaning.MasqueradesIff: addresses and masks of four bytes; an address that is not IPv4 gives an empty value, which MasqueradeReads still covers. The kernel beyond the expressions used here is not modelled.
- The dump requests of internal/netlink/link.go and internal/netlink/inet_diag.go: fixed headers; NlMsg and BatchSplits cover their framing.
- NetlinkRequests.AddHostRouteMeans: interface indexes from 0 to 2^32 - 1; larger ones are cut by the uint32 conversion, and no kernel hands them out.
- Tun.Apply is not modelled; it is not atomic on failure, so the manager theorems take atomicity as a condition.
- binary.NativeEndian is little-endian here.
- Server.Server.UdpToTun: one round without interruption by the other loops (interleavings are the subject of the step system), with fewer than 2^64 registrations and sends.
- The encoder's refusals of an IPv6 tunnel address or a zero MTU: the server calls it with an IPv4 address and a constant MTU only.
- SessionSafety.RunKeeps: runs with fewer than 2^64 registrations and fewer than 2^64 sends per session; SessionProgress.NoncesRepeatBeyondBound shows that the bound matters.
- SessionProgress.DataArrives: says that a schedule exists, not that the scheduler chooses it; liveness is not claimed. The same holds of SessionDelivery.DataReturns and SessionDelivery.PingArrives.
- DefaultRoute.WalkRefines: datagrams whose message lengths fit; on others the walk reads stale buffer bytes, which DefaultRoute.ReadRoutes still describes.
- DefaultRoute.ReadRoutes: a loop that would repeat one round for ever reports that outcome instead, since Dafny methods terminate; OuterLoopEnds and InnerLoopEnds say that this is when it does.
- DefaultRouteCall.DefaultRouteRecovered: datagrams whose message lengths fit; an interrupted recvfrom is the same as no call.
- NetlinkReceive.AcknowledgedMeansSuccess: assumes no timeout before the last reply.
