/** The server as an object: udpToTun, tunToUdp and expirePeersLoop of internal/server/server.go with the handlers of
    internal/server/handler.go, over the peer store and its peers. One round of a loop, when no other loop interrupts
    it, is proved to be the steps of module Session it is made of. */
module Server {
  import opened Bytes
  import opened Codec
  import opened Aead
  import opened PacketCodec
  import opened PeerIndex
  import opened Addressing
  import opened ReplayWindow
  import opened Session
  import opened SessionInvariants
  import opened SessionProgress
  import opened SessionSafety
  import opened SessionSteps
  import P = PeerStore

  // ---- Rounds as runs ----

  function Try(s: State, step: Step): State
  {
    if Enabled(s, step) then Apply(s, step) else s
  }

  /** handleAloha after register. */
  function HelloRound(s: State, serverRandom: Random, ciphertext: seq<byte>): State
  {
    var s1 := Try(s, StepAcceptHello);
    var s2 := Try(s1, StepSetCipher(serverRandom));
    var s3 := Try(s2, StepRoutePeer);
    var s4 := Try(s3, StepDrawWelcome);
    Try(s4, StepSendWelcome(ciphertext))
  }

  /** handleData and handleKeepalive. */
  function HandlerRound(s: State): State
  {
    var s1 := Try(s, StepLookupAgain);
    var s2 := Try(s1, StepAcceptMessage);
    var s3 := Try(s2, StepDeliver);
    Try(s3, StepTouch)
  }

  /** One packet, from ReadFromUDP to the next one. */
  function UdpRound(s: State, packet: seq<byte>, from: Address, serverRandom: Random, ciphertext: seq<byte>): State
  {
    var s1 := Try(s, StepUdpReceive(packet, from));
    if s1.udp.Registered? then HelloRound(s1, serverRandom, ciphertext)
    else if s1.udp.Found? then HandlerRound(Try(s1, StepOpenFound))
    else s1
  }

  function TunRound(s: State, packet: seq<byte>, ciphertext: seq<byte>): State
  {
    var s1 := Try(s, StepReadTun(packet));
    var s2 := Try(s1, StepDrawData);
    Try(s2, StepSendData(ciphertext))
  }

  // ---- Indexes of positions and indexes of objects ----

  predicate Below<K>(m: map<K, nat>, n: nat)
  {
    forall k :: k in m ==> m[k] < n
  }

  predicate InRange(ix: Index<nat>, n: nat)
  {
    Below(ix.byID, n) && Below(ix.byTunnelIP, n) && Below(ix.byClientRandom, n)
  }

  function At<K, R>(m: map<K, nat>, objects: seq<R>): map<K, R>
    requires Below(m, |objects|)
  {
    map k | k in m :: objects[m[k]]
  }

  /** The same indexes, pointing at the objects in these positions. */
  function Pointing<R>(ix: Index<nat>, objects: seq<R>): Index<R>
    requires InRange(ix, |objects|)
  {
    Index(At(ix.byID, objects), At(ix.byTunnelIP, objects), At(ix.byClientRandom, objects), ix.nextID)
  }

  lemma AtInsert<K, R>(m: map<K, nat>, objects: seq<R>, k: K, p: R)
    requires Below(m, |objects|)
    ensures Below(m[k := |objects|], |objects| + 1) && Below(m, |objects| + 1)
    ensures At(m[k := |objects|], objects + [p]) == At(m, objects)[k := p]
    ensures At(m, objects + [p]) == At(m, objects)
  {
  }

  lemma PointingInsert<R>(ix: Index<nat>, objects: seq<R>, p: R, random: Random)
    requires InRange(ix, |objects|)
    ensures InRange(Insert(ix, |objects|, random), |objects| + 1)
    ensures Pointing(Insert(ix, |objects|, random), objects + [p]) == Insert(Pointing(ix, objects), p, random)
  {
    hide Below, At;
    AtInsert(ix.byID, objects, ix.nextID, p);
    AtInsert(ix.byClientRandom, objects, random, p);
    AtInsert(ix.byTunnelIP, objects, Unset, p);
  }

  lemma PointingSet<R>(ix: Index<nat>, objects: seq<R>, id: uint64, ip: TunnelIP)
    requires InRange(ix, |objects|)
    ensures
      var r, o := SetTunnelIP(ix, id, ip), SetTunnelIP(Pointing(ix, objects), id, ip);
      && (r.NotFound? <==> o.NotFound?) && (r.AlreadyExists? <==> o.AlreadyExists?)
      && (r.Set? ==>
            && InRange(r.index, |objects|) && r.peer < |objects|
            && o.index == Pointing(r.index, objects) && o.peer == objects[r.peer])
  {
  }

  /** The objects to go are those in the dead positions, wherever m points. */
  predicate Together<K, R(==)>(m: map<K, nat>, objects: seq<R>, dead: set<nat>, gone: set<R>)
    requires Below(m, |objects|)
  {
    forall k :: k in m ==> (objects[m[k]] in gone <==> m[k] in dead)
  }

  function Keep<K, V(==)>(m: map<K, V>, dead: set<V>): map<K, V>
  {
    map k | k in m && m[k] !in dead :: m[k]
  }

  lemma AtKeep<K, R>(m: map<K, nat>, objects: seq<R>, dead: set<nat>, gone: set<R>)
    requires Below(m, |objects|) && Together(m, objects, dead, gone)
    ensures Below(Keep(m, dead), |objects|) && At(Keep(m, dead), objects) == Keep(At(m, objects), gone)
  {
  }

  lemma PointingRestrict<R>(ix: Index<nat>, objects: seq<R>, dead: set<nat>, gone: set<R>)
    requires InRange(ix, |objects|)
    requires Together(ix.byID, objects, dead, gone) && Together(ix.byTunnelIP, objects, dead, gone)
    requires Together(ix.byClientRandom, objects, dead, gone)
    ensures InRange(Restrict(ix, dead), |objects|)
    ensures Pointing(Restrict(ix, dead), objects) == Restrict(Pointing(ix, objects), gone)
  {
    hide At, Below, Together, Keep, Restrict;
    AtKeep(ix.byID, objects, dead, gone);
    AtKeep(ix.byTunnelIP, objects, dead, gone);
    AtKeep(ix.byClientRandom, objects, dead, gone);
    RestrictKeeps(ix, dead);
    RestrictKeeps(Pointing(ix, objects), gone);
  }

  lemma RestrictKeeps<R>(ix: Index<R>, dead: set<R>)
    ensures Restrict(ix, dead) == Index(Keep(ix.byID, dead), Keep(ix.byTunnelIP, dead),
            Keep(ix.byClientRandom, dead), ix.nextID)
  {
  }

  /** What the live objects say is what is said about their positions. */
  ghost predicate SayTheSame<R>(ix: Index<nat>, infos: map<nat, Info>, objects: seq<R>, live: map<R, Info>)
    requires InRange(ix, |objects|)
  {
    && live.Keys == At(ix.byID, objects).Values
    && forall r :: 0 <= r < |objects| ==> r in infos && (objects[r] in live ==> live[objects[r]] == infos[r])
  }

  lemma LivePoints<R>(ix: Index<nat>, infos: map<nat, Info>, objects: seq<R>, live: map<R, Info>, r: nat)
    requires InRange(ix, |objects|) && SayTheSame(ix, infos, objects, live) && IsLive(ix, infos, r)
    ensures r < |objects| && objects[r] in live && live[objects[r]] == infos[r]
    ensures IsLive(Pointing(ix, objects), live, objects[r])
  {
    assert At(ix.byID, objects)[infos[r].id] == objects[r];
  }

  /** Agreement carries over to the objects. */
  lemma PointingAgrees<R>(ix: Index<nat>, infos: map<nat, Info>, objects: seq<R>, live: map<R, Info>)
    requires InRange(ix, |objects|) && Agrees(ix, infos) && SayTheSame(ix, infos, objects, live)
    ensures Agrees(Pointing(ix, objects), live)
  {
    hide SayTheSame, IsLive;
    var ox := Pointing(ix, objects);
    forall id | id in ox.byID ensures id < ox.nextID && Described(ox, live, id) {
      assert Described(ix, infos, id);
      DescribedIsLive(ix, infos, id);
      LivePoints(ix, infos, objects, live, ix.byID[id]);
    }
    forall random | random in ox.byClientRandom {
      LivePoints(ix, infos, objects, live, ix.byClientRandom[random]);
    }
    forall ip | ip in ox.byTunnelIP {
      LivePoints(ix, infos, objects, live, ix.byTunnelIP[ip]);
    }
  }

  lemma DescribedIsLive<R>(ix: Index<R>, infos: map<R, Info>, id: uint64)
    requires id in ix.byID && Described(ix, infos, id)
    ensures IsLive(ix, infos, ix.byID[id])
  {
  }

  // ---- The server ----

  class Server {
    const network: Network
    const store: P.Store
    const aead: IdealAead
    /** What was written to the TUN device and to the socket. */
    var tun: seq<seq<byte>>
    var conn: seq<(Address, seq<byte>)>
    /** Every peer ever registered, in order, and the server as module Session sees it. */
    ghost var peers: seq<P.Peer>
    ghost var state: State

    ghost function Repr(): set<object>
      reads this
    {
      (set i | 0 <= i < |peers| :: peers[i] as object)
        + (set i | 0 <= i < |peers| :: peers[i].clientReplayWindow as object)
    }

    ghost predicate Distinct()
      reads this
    {
      forall i, j :: 0 <= i < j < |peers| ==>
        peers[i] != peers[j] && peers[i].clientReplayWindow != peers[j].clientReplayWindow
    }

    static ghost predicate Same(p: P.Peer, q: Peer)
      reads p, p.clientReplayWindow
    {
      && p.id == q.id && p.addr == q.addr && p.clientRandom == q.clientRandom && p.tunnelIP == q.tunnelIP
         && p.cipher == q.cipher
      && p.serverSendSequence == Counter(q.sends) && p.clientReplayWindow.View() == q.window && p.lastSeen == q.lastSeen
    }

    ghost predicate PeersMatch()
      reads this, Repr()
    {
      && |peers| == |state.peers| && Distinct()
      && forall i :: 0 <= i < |peers| ==> Same(peers[i], state.peers[i])
    }

    ghost predicate IndexMatches()
      reads this, store
    {
      InRange(state.index, |peers|) && store.View() == Pointing(state.index, peers)
    }

    ghost predicate Coupled()
      reads this, store, aead, Repr()
    {
      && state.network == network && PeersMatch() && IndexMatches() && aead.log == state.log
      && |tun| == |state.writes| && forall i :: 0 <= i < |tun| ==> tun[i] == state.writes[i].payload
    }

    constructor (network: Network, aead: IdealAead)
      requires aead.log == []
      ensures Coupled() && state == Init(network) && this.aead == aead && conn == []
    {
      this.network, this.aead, tun, conn, peers, state := network, aead, [], [], [], Init(network);
      store := new P.Store();
    }

    /** What peer_store.go needs of its own maps follows from the session invariant. */
    lemma StoreAgrees()
      requires Coupled() && IndexOk(state)
      ensures store.Valid()
    {
      hide Agrees;
      PointingAgrees(state.index, Infos(state), peers, store.Live());
    }

    /** t is s with q in place of peer r; only the loops' own places may differ besides. */
    static ghost predicate OnlyPeer(s: State, t: State, r: nat, q: Peer)
    {
      r < |s.peers| && t == s.(peers := s.peers[r := q], udp := t.udp, tun := t.tun)
    }

    // ---- The mutex-protected actions on one peer ----

    method AcceptSequence(peer: P.Peer, sequence: uint64, ghost r: nat, ghost next: State) returns (v: Verdict)
      requires Coupled() && r < |peers| && peer == peers[r]
               && OnlyPeer(state, next, r, Accepting(state.peers[r], sequence).0)
      modifies this`state, peer.clientReplayWindow
      ensures Coupled() && state == next && v == Accepting(old(state).peers[r], sequence).1
    {
      v := peer.AcceptClientSequence(sequence);
      state := next;
    }

    method SetCipher(peer: P.Peer, key: Key, ghost r: nat, ghost next: State)
      requires Coupled() && r < |peers| && peer == peers[r] && r < |next.peers|
      requires OnlyPeer(state, next, r,
               state.peers[r].(cipher := Some(key), serverRandom := next.peers[r].serverRandom))
      modifies this`state, peer`cipher
      ensures Coupled() && state == next
    {
      peer.SetCipher(key);
      state := next;
    }

    method NextSendSequence(peer: P.Peer, ghost r: nat, ghost next: State) returns (sequence: uint64)
      requires Coupled() && r < |peers| && peer == peers[r] && OnlyPeer(state, next, r, Drawing(state.peers[r]))
      modifies this`state, peer`serverSendSequence
      ensures Coupled() && state == next && sequence == Counter(next.peers[r].sends)
    {
      NextCount(state.peers[r].sends);
      sequence := peer.NextSendSequence();
      state := next;
    }

    method Touch(peer: P.Peer, now: int, ghost r: nat, ghost next: State)
      requires Coupled() && r < |peers| && peer == peers[r]
               && OnlyPeer(state, next, r, state.peers[r].(lastSeen := now))
      modifies this`state, peer`lastSeen
      ensures Coupled() && state == next
    {
      peer.Touch(now);
      state := next;
    }

    // ---- The store ----

    method Register(from: Address, random: Random, now: int, ghost packet: seq<byte>, ghost sequence: uint64)
      returns (peer: P.Peer, created: bool)
      requires Coupled() && IndexOk(state) && now == state.clock && |packet| >= PREFIX_LEN
      modifies this`state, this`peers, store
      ensures Coupled() && state == RegisterPeer(old(state), packet, from, random, sequence)
      ensures created == (random !in old(state).index.byClientRandom)
      ensures fresh(Repr() - old(Repr()))
      ensures created ==> peers == old(peers) + [peer]
    {
      hide Agrees, Pointing, InRange, Insert, HandshakeSource, Infos;
      StoreAgrees();
      RandomAt(random);
      ghost var ix, was := state.index, state.peers;
      peer, created := store.Register(from, random, now);
      if created {
        PointingInsert(ix, peers, peer, random);
        peers := peers + [peer];
        state := RegisterPeer(state, packet, from, random, sequence);
        assert |state.peers| == |peers| && state.peers[..|was|] == was;
        assert forall i :: 0 <= i < |was| ==> Same(peers[i], state.peers[i]);
        assert Same(peer, state.peers[|was|]);
        assert PeersMatch() && IndexMatches();
      }
    }

    lemma RandomAt(random: Random)
      requires IndexMatches()
      ensures random in store.byClientRandom <==> random in state.index.byClientRandom
      ensures store.nextID == state.index.nextID
    {
    }

    lemma Others(id: uint64)
      requires IndexMatches() && Distinct() && id in state.index.byID
      ensures id in store.byID
      ensures forall i :: 0 <= i < |peers| && i != state.index.byID[id] ==> peers[i] != store.byID[id]
    {
    }

    lemma EntryAt(id: uint64)
      requires IndexMatches()
      ensures id in store.byID <==> id in state.index.byID
      ensures id in store.byID ==> state.index.byID[id] < |peers| && store.byID[id] == peers[state.index.byID[id]]
    {
    }

    method SetPeerTunnelIP(id: uint64, ip: TunnelIP) returns (ok: bool)
      requires Coupled() && IndexOk(state) && ip.V4?
      modifies this`state, store, Repr()
      ensures Coupled() && peers == old(peers) && ok == SetTunnelIP(old(state).index, id, ip).Set?
      ensures !ok ==> state == old(state)
      ensures ok ==>
                var placed := SetTunnelIP(old(state).index, id, ip);
                && placed.peer < |old(state).peers|
                && state == WithPeer(old(state), placed.peer,
                   old(state).peers[placed.peer].(tunnelIP := ip)).(index := placed.index)
    {
      hide Agrees, Pointing, InRange, Infos, IndexOk;
      StoreAgrees();
      PointingSet(state.index, peers, id, ip);
      EntryAt(id);
      ghost var placed := SetTunnelIP(state.index, id, ip);
      ghost var was := state.peers;
      if placed.Set? {
        Others(id);
      }
      var r := store.SetPeerTunnelIP(id, ip);
      assert placed.Set? ==> forall i :: 0 <= i < |peers| && i != placed.peer ==> Same(peers[i], was[i]);
      ok := r.Set?;
      if ok {
        state := WithPeer(state, placed.peer, state.peers[placed.peer].(tunnelIP := ip)).(index := placed.index);
        assert forall i :: 0 <= i < |peers| && i != placed.peer ==> Same(peers[i], state.peers[i]);
        assert Same(peers[placed.peer], state.peers[placed.peer]);
        assert PeersMatch() && IndexMatches();
      }
    }

    // ---- handleAloha, step by step ----

    /** The loop holds the pointer to peer r. */
    ghost predicate Holds(r: nat, peer: P.Peer)
      reads this
    {
      |peers| == |state.peers| && r < |peers| && peers[r] == peer
    }

    lemma InRepr(r: nat)
      requires r < |peers|
      ensures peers[r] in Repr() && peers[r].clientReplayWindow in Repr()
    {
    }

    /** At most one packet went out: the wire form of the one new Seal call. */
    static ghost predicate Sent(before: State, after: State, to: Address, conn: seq<(Address, seq<byte>)>,
                                conn': seq<(Address, seq<byte>)>)
    {
      conn' == if |after.log| > |before.log| then conn + [(to, Wire(after.log[|after.log| - 1]))] else conn
    }

    lemma Positions(r: nat)
      requires Coupled() && r < |peers|
      ensures state.network == network && |peers| == |state.peers| && Same(peers[r], state.peers[r])
      ensures forall id :: id in state.index.byID ==> state.index.byID[id] < |peers|
    {
    }

    /** The loops' places are not part of any object. */
    ghost method MoveLoops(next: State)
      requires Coupled() && next == state.(udp := next.udp, tun := next.tun)
      modifies this`state
      ensures Coupled() && state == next
    {
      state := next;
    }

    method RegisterHello(from: Address, m: Message, random: Random, now: int, ghost packet: seq<byte>)
      returns (peer: P.Peer, created: bool)
      requires Coupled() && IndexOk(state) && now == state.clock && state.udp == Reading
      requires |packet| >= PREFIX_LEN
               && UdpReceive(state, packet, from) == RegisterPeer(state, packet, from, random, m.header.sequence)
      modifies this`state, this`peers, store
      ensures Coupled() && state.log == old(state).log && state == Try(old(state), StepUdpReceive(packet, from))
              && fresh(Repr() - old(Repr()))
      ensures !created ==> state == old(state)
      ensures created ==> state.udp.Registered? && state.udp.random == random && state.udp.sequence == m.header.sequence
      ensures created ==> Holds(state.udp.peer, peer) && peer in Repr() && peer.clientReplayWindow in Repr()
    {
      hide UdpReceive, Agrees, Insert, HandshakeSource, Pointing, InRange, Infos;
      peer, created := Register(from, random, now, packet, m.header.sequence);
      if created {
        InRepr(|peers| - 1);
      }
    }

    method AdmitHello(peer: P.Peer, sequence: uint64) returns (v: Verdict)
      requires Coupled() && CanAcceptHello(state) && Holds(state.udp.peer, peer) && sequence == state.udp.sequence
      modifies this`state, peer.clientReplayWindow
      ensures Coupled() && state.log == old(state).log && state == Try(old(state), StepAcceptHello)
      ensures state.udp == if v == Accepted then HelloAccepted(old(state).udp.peer, old(state).udp.random) else Reading
      ensures v == Accepted ==> Holds(state.udp.peer, peer)
    {
      hide Coupled;
      v := AcceptSequence(peer, sequence, state.udp.peer, AcceptHello(state));
    }

    method KeyPeer(peer: P.Peer, random: Random, serverRandom: Random)
      requires Coupled() && CanSetCipher(state, serverRandom) && Holds(state.udp.peer, peer)
               && random == state.udp.random
      modifies this`state, peer`cipher
      ensures Coupled() && state.log == old(state).log && state == Try(old(state), StepSetCipher(serverRandom))
      ensures state.udp == Keyed(old(state).udp.peer, random, serverRandom) && Holds(state.udp.peer, peer)
    {
      SetCipher(peer, PeerKey(peer.id, random, serverRandom), state.udp.peer, Session.SetCipher(state, serverRandom));
    }

    /** allocateTunnelIP and setTunnelIP; an error ends the loop. */
    method PlacePeer(peer: P.Peer) returns (ip: Option<uint32>)
      requires Coupled() && IndexOk(state) && state.udp.Keyed? && Holds(state.udp.peer, peer)
      modifies this`state, store, Repr()
      ensures Coupled() && peers == old(peers) && state.log == old(state).log && state == Try(old(state), StepRoutePeer)
      ensures ip.None? ==> state.udp == UdpDown
      ensures ip.Some? ==>
                && state.udp == Routable(old(state).udp.peer, old(state).udp.random, old(state).udp.serverRandom,
                   ip.value)
                && Holds(state.udp.peer, peer)
    {
      hide IndexOk, Allocate, Coupled, SetTunnelIP;
      ghost var before := state;
      Positions(state.udp.peer);
      ip := Allocate(network, peer.id);
      if ip.Some? {
        var ok := SetPeerTunnelIP(peer.id, V4(ip.value));
        ip := if ok then ip else None;
      }
      MoveLoops(RoutePeer(before));
    }

    method NumberWelcome(peer: P.Peer) returns (sequence: uint64)
      requires Coupled() && CanDrawWelcome(state) && Holds(state.udp.peer, peer)
      modifies this`state, peer`serverSendSequence
      ensures Coupled() && state.log == old(state).log && state == Try(old(state), StepDrawWelcome)
      ensures
        var u := old(state).udp;
        state.udp == WelcomeDrawn(u.peer, u.random, u.serverRandom, u.ip, sequence) && Holds(u.peer, peer)
    {
      hide Coupled;
      sequence := NextSendSequence(peer, state.udp.peer, DrawWelcome(state));
    }

    method ReplyWelcome(peer: P.Peer, from: Address, random: Random, serverRandom: Random, ip: uint32, sequence: uint64,
                        ciphertext: seq<byte>) returns (alive: bool)
      requires Coupled() && CanSendWelcome(state, ciphertext) && Holds(state.udp.peer, peer)
      requires state.udp == WelcomeDrawn(state.udp.peer, random, serverRandom, ip, sequence)
      modifies this`state, this`conn, aead
      ensures Coupled() && state == Try(old(state), StepSendWelcome(ciphertext))
      ensures state.udp == (if alive then Reading else UdpDown) && Sent(old(state), state, from, old(conn), conn)
    {
      hide EncodeHandshake, InRange, Pointing;
      var message := MessageOf(WELCOME, peer.id, sequence, WelcomePayload(ip, MTU));
      var sealed := SealHandshake(aead, WelcomeKey(random, serverRandom), ServerToClient, WELCOME, message,
        serverRandom, ciphertext);
      state := SendWelcome(state, ciphertext);
      if sealed.Err? {
        return false;
      }
      conn := conn + [(from, sealed.value[..])];
      return true;
    }

    /** handleAloha after register. */
    method Greet(peer: P.Peer, from: Address, random: Random, sequence: uint64, serverRandom: Random,
                 ciphertext: seq<byte>) returns (alive: bool)
      requires Coupled() && CanAcceptHello(state) && Holds(state.udp.peer, peer)
      requires random == state.udp.random && sequence == state.udp.sequence
      requires |ciphertext| == WELCOME_PAYLOAD_LEN + TAG_LEN
      requires FreshServerRandom(Try(state, StepAcceptHello), serverRandom)
      requires IndexOk(Try(Try(state, StepAcceptHello), StepSetCipher(serverRandom)))
      modifies this`state, this`conn, store, aead, Repr()
      ensures Coupled() && peers == old(peers) && state == HelloRound(old(state), serverRandom, ciphertext)
      ensures state.udp == (if alive then Reading else UdpDown) && Sent(old(state), state, from, old(conn), conn)
    {
      hide Coupled, Try, FreshServerRandom, IndexOk;
      InRepr(state.udp.peer);
      var v := AdmitHello(peer, sequence);
      if v != Accepted {
        HelloIdle(state, serverRandom, ciphertext);
        return true;
      }
      KeyPeer(peer, random, serverRandom);
      var ip := PlacePeer(peer);
      if ip.None? {
        HelloIdle(state, serverRandom, ciphertext);
        return false;
      }
      var number := NumberWelcome(peer);
      alive := ReplyWelcome(peer, from, random, serverRandom, ip.value, number, ciphertext);
    }

    method HandleAloha(from: Address, m: Message, random: Random, serverRandom: Random, ciphertext: seq<byte>, now: int,
                       ghost packet: seq<byte>) returns (alive: bool)
      requires Coupled() && Inv(state) && state.udp == Reading && now == state.clock
      requires |packet| >= PREFIX_LEN
               && UdpReceive(state, packet, from) == RegisterPeer(state, packet, from, random, m.header.sequence)
      requires InBounds(UdpRound(state, packet, from, serverRandom, ciphertext))
               && FreshServerRandom(state, serverRandom)
      requires |ciphertext| == WELCOME_PAYLOAD_LEN + TAG_LEN
      modifies this, store, aead, Repr()
      ensures Coupled() && fresh(Repr() - old(Repr()))
              && state == UdpRound(old(state), packet, from, serverRandom, ciphertext)
      ensures state.udp == (if alive then Reading else UdpDown) && Sent(old(state), state, from, old(conn), conn)
    {
      hide Coupled, Inv, InBounds, Try, UdpReceive, RegisterPeer, FreshServerRandom, IndexOk, HelloRound;
      ghost var s0 := state;
      InvIndex(s0);
      var peer, created := RegisterHello(from, m, random, now, packet);
      if !created {
        return true;
      }
      HelloRoundKeeps(s0, state, packet, from, serverRandom, ciphertext);
      alive := Greet(peer, from, random, m.header.sequence, serverRandom, ciphertext);
    }

    // ---- handleData and handleKeepalive ----

    method FindPeer(header: Header, from: Address, ghost packet: seq<byte>) returns (peer: Option<P.Peer>)
      requires Coupled() && state.udp == Reading && PeekHeader(packet) == Ok(header) && header.kind != ALOHA
      modifies this`state
      ensures Coupled() && state.clock == old(state).clock && state.log == old(state).log
              && state == Try(old(state), StepUdpReceive(packet, from))
      ensures peer.None? ==> state == old(state)
      ensures peer.Some? ==>
                && CanOpen(state) && state.udp.packet == packet && state.udp.from == from
                && Holds(state.udp.peer, peer.value)
      ensures peer == if header.peerID in store.byID then Some(store.byID[header.peerID]) else None
    {
      hide PeekHeader, Pointing, InRange;
      HeaderFits(packet);
      LookupAt(header.peerID);
      peer := store.GetByID(header.peerID);
      MoveLoops(UdpReceive(state, packet, from));
    }

    lemma LookupAt(id: uint64)
      requires Coupled()
      ensures |peers| == |state.peers| && (id in store.byID <==> id in state.index.byID)
      ensures id in store.byID ==>
                Holds(state.index.byID[id], store.byID[id]) && Same(store.byID[id], state.peers[state.index.byID[id]])
      ensures forall i :: i in state.index.byID ==> state.index.byID[i] < |peers|
    {
      EntryAt(id);
    }

    method OpenFrom(peer: P.Peer, buf: array<byte>) returns (m: Option<Message>)
      requires Coupled() && CanOpen(state) && state.udp.packet == buf[..] && Holds(state.udp.peer, peer)
      modifies this`state
      ensures Coupled() && state.clock == old(state).clock && state.log == old(state).log
              && state == Try(old(state), StepOpenFound)
      ensures m.None? ==> state.udp == Reading
      ensures m.Some? ==>
                state.udp.Authenticated? && state.udp.message == m.value && state.udp.from == old(state).udp.from
      ensures m == Opens(peer.cipher, aead.log, buf[..])
    {
      hide DecodePacket, PacketSource, Pointing, InRange;
      Positions(state.udp.peer);
      LogMatches();
      m := None;
      if peer.cipher.Some? {
        var message := OpenPacket(aead, peer.cipher.value, ClientToServer, buf);
        if message.Ok? && (message.value.header.kind == KEEPALIVE || message.value.header.kind == DATA) {
          m := Some(message.value);
        }
      }
      MoveLoops(OpenFound(state));
    }

    /** The message a packet holds for the server: a DATA or KEEPALIVE packet that opens under the peer's cipher. */
    static function Opens(cipher: Option<Key>, log: seq<Sealed>, packet: seq<byte>): Option<Message>
    {
      match cipher
      case None => None
      case Some(key) =>
        match DecodePacket(log, key, ClientToServer, packet)
        case Err(_) => None
        case Ok(m) => if m.header.kind == DATA || m.header.kind == KEEPALIVE then Some(m) else None
    }

    /** What comes of a message for a live peer. A keepalive counts wherever it comes from; DATA must come from the
        peer's own address and hold something. A new number refreshes the peer, and the payload of DATA goes to the TUN.
        */
    twostate predicate Handled(peer: P.Peer, m: Message, from: Address, now: int)
      reads this, peer
    {
      if (m.header.kind == KEEPALIVE || (m.payload != [] && peer.addr == from))
        && Advance(old(peer.clientReplayWindow.View()), m.header.sequence).1 == Accepted
      then peer.lastSeen == now && tun == old(tun) + if m.header.kind == DATA then [m.payload] else []
      else peer.lastSeen == old(peer.lastSeen) && tun == old(tun)
    }

    lemma LogMatches()
      requires Coupled()
      ensures aead.log == state.log && |peers| == |state.peers|
    {
    }

    method LookupSender(m: Message, from: Address) returns (peer: Option<P.Peer>)
      requires Coupled() && state.udp.Authenticated? && state.udp.message == m && state.udp.from == from
      modifies this`state
      ensures Coupled() && state.clock == old(state).clock && state == Try(old(state), StepLookupAgain)
      ensures peer.None? ==> state.udp == Reading
      ensures peer.Some? ==> state.udp.Handling? && state.udp.message == m && Holds(state.udp.peer, peer.value)
      ensures
        var found := if m.header.peerID in store.byID then Some(store.byID[m.header.peerID]) else None;
        if found.Some? && (m.header.kind == DATA ==> m.payload != [] && found.value.addr == from) then peer == found
        else peer == None
    {
      hide Pointing, InRange;
      LookupAt(m.header.peerID);
      peer := None;
      if !(m.header.kind == DATA && |m.payload| == 0) {
        var found := store.GetByID(m.header.peerID);
        if found.Some? && !(m.header.kind == DATA && found.value.addr != from) {
          peer := found;
        }
      }
      MoveLoops(LookupAgain(state));
    }

    method AdmitMessage(peer: P.Peer, m: Message) returns (v: Verdict)
      requires Coupled() && CanAcceptMessage(state) && state.udp.message == m && Holds(state.udp.peer, peer)
      modifies this`state, peer.clientReplayWindow
      ensures Coupled() && state.clock == old(state).clock && state == Try(old(state), StepAcceptMessage)
      ensures v != Accepted ==> state.udp == Reading
      ensures v == Accepted && m.header.kind == DATA ==>
                state.udp.Delivering? && state.udp.message == m && Holds(state.udp.peer, peer)
      ensures v == Accepted && m.header.kind != DATA ==> state.udp.Touching? && Holds(state.udp.peer, peer)
      ensures v == Advance(old(peer.clientReplayWindow.View()), m.header.sequence).1
    {
      Positions(state.udp.peer);
      hide Coupled;
      v := AcceptSequence(peer, m.header.sequence, state.udp.peer, AcceptMessage(state));
    }

    method WriteTun(peer: P.Peer, m: Message)
      requires Coupled() && state.udp.Delivering? && state.udp.message == m && Holds(state.udp.peer, peer)
      modifies this`state, this`tun
      ensures tun == old(tun) + [m.payload]
      ensures Coupled() && state.clock == old(state).clock && state == Try(old(state), StepDeliver)
              && state.udp.Touching? && Holds(state.udp.peer, peer)
    {
      hide InRange, Pointing;
      tun := tun + [m.payload];
      state := Deliver(state);
    }

    method RefreshPeer(peer: P.Peer, now: int)
      requires Coupled() && CanTouch(state) && Holds(state.udp.peer, peer) && now == state.clock
      modifies this`state, peer`lastSeen
      ensures Coupled() && state == Try(old(state), StepTouch) && state.udp == Reading && peer.lastSeen == now
    {
      ghost var r := state.udp.peer;
      hide Coupled;
      Touch(peer, now, r, Session.Touch(state));
      SeenIs(peer, r);
    }

    lemma SeenIs(peer: P.Peer, r: nat)
      requires Coupled() && Holds(r, peer)
      ensures peer.lastSeen == state.peers[r].lastSeen
    {
      Positions(r);
    }

    method HandleMessage(m: Message, from: Address, now: int)
      requires Coupled() && state.udp.Authenticated? && state.udp.message == m && state.udp.from == from
               && now == state.clock
      requires m.header.kind == DATA || m.header.kind == KEEPALIVE
      modifies this`state, this`tun, Repr()
      ensures Coupled() && state == HandlerRound(old(state)) && state.udp == Reading && state.log == old(state).log
      ensures if m.header.peerID in old(store.byID) then Handled(old(store.byID)[m.header.peerID], m, from, now)
              else tun == old(tun)
    {
      hide Coupled, Try;
      HandlerKeepsLog(state);
      var peer := LookupSender(m, from);
      if peer.None? {
        HandlerIdle(state);
        return;
      }
      InRepr(state.udp.peer);
      var v := AdmitMessage(peer.value, m);
      if v != Accepted {
        HandlerIdle(state);
        return;
      }
      if m.header.kind == DATA {
        WriteTun(peer.value, m);
      } else {
        NothingToDeliver(state);
      }
      RefreshPeer(peer.value, now);
    }

    /** What one packet of any type but ALOHA does to the objects. */
    twostate predicate Effect(packet: seq<byte>, id: uint64, from: Address, now: int)
      reads *
    {
      if id !in old(store.byID) then tun == old(tun)
      else
        var peer := old(store.byID)[id];
        match Opens(old(peer.cipher), old(aead.log), packet)
        case None => tun == old(tun)
        case Some(m) => Handled(peer, m, from, now)
    }

    /** The rest of the loop body, for such a packet. */
    method HandleSealed(header: Header, buf: array<byte>, from: Address, now: int, ghost serverRandom: Random,
                        ghost ciphertext: seq<byte>)
      requires Coupled() && state.udp == Reading && now == state.clock
      requires PeekHeader(buf[..]) == Ok(header) && header.kind != ALOHA
      modifies this`state, this`tun, Repr()
      ensures Coupled() && state == UdpRound(old(state), buf[..], from, serverRandom, ciphertext)
      ensures state.udp == Reading && state.log == old(state).log && Effect(buf[..], header.peerID, from, now)
    {
      hide HandlerRound, HelloRound, PeekHeader, PeersMatch, IndexMatches, Try;
      ghost var s0, packet := state, buf[..];
      var peer := FindPeer(header, from, packet);
      if peer.None? {
        return;
      }
      var m := OpenFrom(peer.value, buf);
      if m.None? {
        HandlerIdleRound(state);
        return;
      }
      SameHeader(peer.value.cipher, aead.log, buf[..]);
      HandleMessage(m.value, from, now);
    }

    /** One packet of udpToTun: the protocol steps of that packet, in order, and nothing else. */
    method UdpToTun(buf: array<byte>, from: Address, serverRandom: Random, ciphertext: seq<byte>, now: int)
      returns (alive: bool)
      requires Coupled() && Inv(state) && state.udp == Reading && now == state.clock
      requires InBounds(UdpRound(state, buf[..], from, serverRandom, ciphertext))
               && FreshServerRandom(state, serverRandom)
      requires |ciphertext| == WELCOME_PAYLOAD_LEN + TAG_LEN
      modifies this, store, aead, Repr()
      ensures Coupled() && fresh(Repr() - old(Repr()))
              && state == UdpRound(old(state), buf[..], from, serverRandom, ciphertext)
      ensures state.udp == (if alive then Reading else UdpDown) && Sent(old(state), state, from, old(conn), conn)
      ensures
        var h := PeekHeader(buf[..]);
        h.Ok? && h.value.kind != ALOHA ==>
          && alive && conn == old(conn) && aead.log == old(aead.log)
          && Effect(buf[..], h.value.peerID, from, now)
    {
      hide Inv, InBounds, HelloRound, HandlerRound, PeekHeader, DecodeAloha, FreshServerRandom, RegisterPeer,
           PeersMatch, IndexMatches, Try, UdpReceive;
      ghost var s0, packet := state, buf[..];
      LogMatches();
      ReceiveBranches(s0, packet, from);
      var header := PeekHeader(buf[..]);
      if header.Err? {
        return true;
      }
      if header.value.kind == ALOHA {
        var decoded := OpenAloha(aead, buf);
        if decoded.Err? {
          return true;
        }
        alive := HandleAloha(from, decoded.value.0, decoded.value.1, serverRandom, ciphertext, now, packet);
        return;
      }
      HandleSealed(header.value, buf, from, now, serverRandom, ciphertext);
      return true;
    }

    static lemma SameHeader(cipher: Option<Key>, log: seq<Sealed>, packet: seq<byte>)
      ensures Opens(cipher, log, packet).Some? ==> PeekHeader(packet) == Ok(Opens(cipher, log, packet).value.header)
      ensures Opens(cipher, log, packet).Some? ==> ValidType(Opens(cipher, log, packet).value.header.kind)
    {
      hide DecodePacket, PeekHeader;
      if Opens(cipher, log, packet).Some? {
        DecodedWasSealed(log, cipher.value, ClientToServer, packet);
      }
    }

    // ---- tunToUdp ----

    method FindRoute(packet: seq<byte>) returns (peer: Option<P.Peer>, alive: bool)
      requires Coupled() && CanReadTun(state, packet)
      modifies this`state
      ensures Coupled() && state.log == old(state).log && state == Try(old(state), StepReadTun(packet))
      ensures peer.None? ==> state.tun == if alive then TunReading else TunDown
      ensures peer.Some? ==>
                alive && CanDrawData(state) && state.tun.packet == packet && Holds(state.tun.peer, peer.value)
      ensures alive == !ExtractDst(packet).Malformed? && peer == RouteFor(packet)
    {
      hide ExtractDst, Below;
      var dst := ExtractDst(packet);
      peer, alive := None, !dst.Malformed?;
      if dst.Dst? {
        RouteAt(V4(dst.addr));
        peer := store.GetByTunnelIP(V4(dst.addr));
      }
      MoveLoops(ReadTun(state, packet));
    }

    /** The live peer with the packet's destination as its tunnel IP. */
    ghost function RouteFor(packet: seq<byte>): Option<P.Peer>
      reads store
    {
      match ExtractDst(packet)
      case Dst(ip) => if V4(ip) in store.byTunnelIP then Some(store.byTunnelIP[V4(ip)]) else None
      case _ => None
    }

    lemma RouteAt(ip: TunnelIP)
      requires Coupled()
      ensures |peers| == |state.peers| && (ip in store.byTunnelIP <==> ip in state.index.byTunnelIP)
      ensures ip in store.byTunnelIP ==> Holds(state.index.byTunnelIP[ip], store.byTunnelIP[ip])
    {
    }

    method NumberData(peer: P.Peer) returns (sequence: uint64)
      requires Coupled() && CanDrawData(state) && Holds(state.tun.peer, peer)
      modifies this`state, peer`serverSendSequence
      ensures Coupled() && state.log == old(state).log && state == Try(old(state), StepDrawData)
      ensures state.tun == TunDrawn(old(state).tun.peer, old(state).tun.packet, sequence) && Holds(state.tun.peer, peer)
      ensures sequence == peer.serverSendSequence == (old(peer.serverSendSequence) + 1) % TWO_64
    {
      ghost var r, next := state.tun.peer, DrawData(state);
      Positions(r);
      NextCount(state.peers[r].sends);
      hide Coupled;
      sequence := NextSendSequence(peer, r, next);
      NumberIs(peer, r);
    }

    lemma NumberIs(peer: P.Peer, r: nat)
      requires Coupled() && Holds(r, peer)
      ensures peer.serverSendSequence == Counter(state.peers[r].sends)
    {
      Positions(r);
    }

    /** One DATA packet: a single Seal call whose plaintext is the inner packet, under the peer's key and this number,
        and its wire form sent to the peer's address. Without a cipher, nothing. */
    twostate predicate SentData(peer: P.Peer, sequence: uint64, packet: seq<byte>, ciphertext: seq<byte>)
      reads this, aead, peer
    {
      var h := HeaderBytes(Header(PROTOCOL_VERSION, DATA, 0, 0, peer.id, sequence));
      if peer.cipher.None? then aead.log == old(aead.log) && conn == old(conn)
      else
        && aead.log ==
           old(aead.log) + [Sealed(peer.cipher.value, Nonce(ServerToClient, sequence), h, packet, ciphertext)]
        && conn == old(conn) + [(peer.addr, h + ciphertext)]
    }

    /** cipherSnapshot, EncodePacket and WriteToUDP. */
    method SendTo(peer: P.Peer, packet: seq<byte>, sequence: uint64, ciphertext: seq<byte>) returns (alive: bool)
      requires Coupled() && CanSendData(state, ciphertext) && Holds(state.tun.peer, peer)
      requires state.tun == TunDrawn(state.tun.peer, packet, sequence) && |packet| <= MAX_PAYLOAD
      modifies this`state, this`conn, aead
      ensures Coupled() && state == Try(old(state), StepSendData(ciphertext))
      ensures state.tun == (if alive then TunReading else TunDown)
              && Sent(old(state), state, peer.addr, old(conn), conn)
      ensures alive && SentData(peer, sequence, packet, ciphertext)
    {
      hide EncodePacket, InRange, Pointing;
      Positions(state.tun.peer);
      ghost var next := SendData(state, ciphertext);
      alive := true;
      if peer.cipher.Some? {
        PacketLayout(peer.cipher.value, ServerToClient, DATA, peer.id, sequence, packet, ciphertext);
        var data := SealPacket(aead, peer.cipher.value, ServerToClient, MessageOf(DATA, peer.id, sequence, packet),
          ciphertext);
        alive := data.Ok?;
        if alive {
          conn := conn + [(peer.addr, data.value[..])];
        }
      }
      state := next;
    }

    /** One packet of tunToUdp, sent to the address of the peer that owns the inner destination. */
    method TunToUdp(packet: seq<byte>, ciphertext: seq<byte>) returns (alive: bool)
      requires Coupled() && CanReadTun(state, packet) && Tagged(packet, ciphertext)
      modifies this`state, this`conn, aead, Repr()
      ensures Coupled() && peers == old(peers) && state == TunRound(old(state), packet, ciphertext)
      ensures state.tun == if alive then TunReading else TunDown
      ensures Sent(old(state), state, Target(old(state), packet), old(conn), conn)
      ensures alive == !ExtractDst(packet).Malformed?
      ensures match old(RouteFor(packet))
        case None => aead.log == old(aead.log) && conn == old(conn)
        case Some(peer) => SentData(peer, (old(peer.serverSendSequence) + 1) % TWO_64, packet, ciphertext)
    {
      hide Coupled, Try, ExtractDst;
      ghost var s0 := state;
      TargetIs(s0, packet);
      var peer;
      peer, alive := FindRoute(packet);
      if peer.None? {
        TunIdle(state, ciphertext);
        return;
      }
      Positions(state.tun.peer);
      InRepr(state.tun.peer);
      var sequence := NumberData(peer.value);
      alive := SendTo(peer.value, packet, sequence, ciphertext);
    }

    // ---- expirePeersLoop ----

    /** One tick: deleteExpired over the objects is the removal of the expired peers' entries. */
    method ExpirePeers(now: int) returns (count: nat)
      requires Coupled() && IndexOk(state)
      modifies this`state, store
      ensures Coupled() && state == Session.ExpirePeers(old(state), now)
    {
      hide Agrees, Restrict, Pointing, InRange;
      StoreAgrees();
      ghost var gone := store.ExpiredPeers(now, PEER_TIMEOUT);
      ExpiredTogether(now, gone);
      count := store.DeleteExpired(now, PEER_TIMEOUT);
      state := Session.ExpirePeers(state, now);
    }

    lemma ExpiredTogether(now: int, gone: set<P.Peer>)
      requires Coupled() && IndexOk(state) && gone == store.ExpiredPeers(now, PEER_TIMEOUT)
      ensures
        var ix := Remove(state.index, Infos(state), Expired(state, now));
        InRange(ix, |peers|) && Pointing(ix, peers) == Restrict(store.View(), gone)
    {
      hide Agrees, Restrict, Pointing, IsLive;
      var dead := Expired(state, now);
      forall r | r in dead ensures IsLive(state.index, Infos(state), r) {
        ExpiredIsLive(state, now, r);
      }
      RemoveIsRestrict(state.index, Infos(state), dead);
      forall r | 0 <= r < |peers| && IsLive(state.index, Infos(state), r) ensures peers[r] in gone <==> r in dead {
        GoneTogether(now, gone, r);
      }
      AgreedAreLive(state.index, Infos(state));
      PointingRestrict(state.index, peers, dead, gone);
    }

    lemma GoneTogether(now: int, gone: set<P.Peer>, r: nat)
      requires Coupled() && gone == store.ExpiredPeers(now, PEER_TIMEOUT)
      requires r < |peers| && IsLive(state.index, Infos(state), r)
      ensures peers[r] in gone <==> r in Expired(state, now)
    {
      EntryAt(state.peers[r].id);
      assert peers[r] in store.byID.Values;
    }
  }

  /** The address of the peer that owns the packet's inner destination. */
  function Target(s: State, packet: seq<byte>): Address
  {
    match ExtractDst(packet)
    case Dst(ip) =>
      if V4(ip) in s.index.byTunnelIP
        && s.index.byTunnelIP[V4(ip)] < |s.peers| then s.peers[s.index.byTunnelIP[V4(ip)]].addr
      else Address(0, 0)
    case _ => Address(0, 0)
  }

  lemma TargetIs(s: State, packet: seq<byte>)
    requires s.tun == TunReading
    ensures
      var t := Try(s, StepReadTun(packet));
      && t.peers == s.peers
      && (t.tun.TunFound? && t.tun.peer < |s.peers| ==> s.peers[t.tun.peer].addr == Target(s, packet))
  {
    hide ExtractDst;
  }

  lemma TunIdle(s: State, ciphertext: seq<byte>)
    requires s.tun == TunReading || s.tun == TunDown
    ensures Try(s, StepDrawData) == s && Try(s, StepSendData(ciphertext)) == s
  {
  }

  lemma ExpiredIsLive(s: State, now: int, r: nat)
    requires r in Expired(s, now)
    ensures IsLive(s.index, Infos(s), r)
  {
  }

  lemma AgreedAreLive<R>(ix: Index<R>, infos: map<R, Info>)
    requires Agrees(ix, infos)
    ensures forall id :: id in ix.byID ==> IsLive(ix, infos, ix.byID[id])
    ensures forall ip :: ip in ix.byTunnelIP ==> IsLive(ix, infos, ix.byTunnelIP[ip])
    ensures forall random :: random in ix.byClientRandom ==> IsLive(ix, infos, ix.byClientRandom[random])
  {
    forall id | id in ix.byID ensures IsLive(ix, infos, ix.byID[id]) {
      assert Described(ix, infos, id);
    }
  }

  lemma HeaderFits(packet: seq<byte>)
    requires PeekHeader(packet).Ok?
    ensures |packet| >= HEADER_LEN
  {
  }

  lemma ReceiveBranches(s: State, packet: seq<byte>, from: Address)
    requires s.udp == Reading
    ensures Try(s, StepUdpReceive(packet, from)) == UdpReceive(s, packet, from)
    ensures PeekHeader(packet).Err? ==> UdpReceive(s, packet, from) == s
    ensures PeekHeader(packet).Ok? && PeekHeader(packet).value.kind == ALOHA ==>
              match DecodeAloha(s.log, packet)
              case Err(_) => UdpReceive(s, packet, from) == s
              case Ok((m, random)) =>
                |packet| >= PREFIX_LEN
                  && UdpReceive(s, packet, from) == RegisterPeer(s, packet, from, random, m.header.sequence)
  {
    hide PeekHeader;
  }

  lemma HandlerIdleRound(s: State)
    requires s.udp == Reading
    ensures HandlerRound(s) == s
  {
    HandlerIdle(s);
  }

  // ---- Rounds are runs ----

  lemma TryRuns(network: Network, steps: seq<Step>, s: State, step: Step) returns (longer: seq<Step>)
    requires Execute(network, steps) == Some(s)
    ensures steps <= longer && Execute(network, longer) == Some(Try(s, step))
  {
    hide Execute, Enabled, Apply;
    longer := steps;
    if Enabled(s, step) {
      OneMore(network, steps, s, step);
      longer := steps + [step];
    }
  }

  /** Whatever udpToTun does with a packet in a reachable state is a run of the protocol, so every whole-run
      theorem of SessionSafety holds of the server's objects as well. */
  lemma UdpRoundRuns(network: Network, steps: seq<Step>, s: State, packet: seq<byte>, from: Address,
                     serverRandom: Random, ciphertext: seq<byte>) returns (longer: seq<Step>)
    requires Execute(network, steps) == Some(s)
    ensures steps <= longer && Execute(network, longer) == Some(UdpRound(s, packet, from, serverRandom, ciphertext))
  {
    hide Execute, Try;
    longer := TryRuns(network, steps, s, StepUdpReceive(packet, from));
    var t := Try(s, StepUdpReceive(packet, from));
    if t.udp.Registered? {
      var s2 := Try(t, StepAcceptHello);
      var s3 := Try(s2, StepSetCipher(serverRandom));
      var s4 := Try(s3, StepRoutePeer);
      longer := TryRuns(network, longer, t, StepAcceptHello);
      longer := TryRuns(network, longer, s2, StepSetCipher(serverRandom));
      longer := TryRuns(network, longer, s3, StepRoutePeer);
      longer := TryRuns(network, longer, s4, StepDrawWelcome);
      longer := TryRuns(network, longer, Try(s4, StepDrawWelcome), StepSendWelcome(ciphertext));
    } else if t.udp.Found? {
      var s2 := Try(t, StepOpenFound);
      var s3 := Try(s2, StepLookupAgain);
      var s4 := Try(s3, StepAcceptMessage);
      longer := TryRuns(network, longer, t, StepOpenFound);
      longer := TryRuns(network, longer, s2, StepLookupAgain);
      longer := TryRuns(network, longer, s3, StepAcceptMessage);
      longer := TryRuns(network, longer, s4, StepDeliver);
      longer := TryRuns(network, longer, Try(s4, StepDeliver), StepTouch);
    }
  }

  lemma TunRoundRuns(network: Network, steps: seq<Step>, s: State, packet: seq<byte>, ciphertext: seq<byte>)
    returns (longer: seq<Step>)
    requires Execute(network, steps) == Some(s)
    ensures steps <= longer && Execute(network, longer) == Some(TunRound(s, packet, ciphertext))
  {
    hide Execute, Try;
    var s1 := Try(s, StepReadTun(packet));
    longer := TryRuns(network, steps, s, StepReadTun(packet));
    longer := TryRuns(network, longer, s1, StepDrawData);
    longer := TryRuns(network, longer, Try(s1, StepDrawData), StepSendData(ciphertext));
  }

  // ---- Rounds that end early ----

  lemma HelloIdle(s: State, serverRandom: Random, ciphertext: seq<byte>)
    requires s.udp == Reading || s.udp == UdpDown
    ensures Try(s, StepSetCipher(serverRandom)) == s && Try(s, StepRoutePeer) == s
    ensures Try(s, StepDrawWelcome) == s && Try(s, StepSendWelcome(ciphertext)) == s
  {
  }

  lemma HandlerIdle(s: State)
    requires s.udp == Reading
    ensures Try(s, StepLookupAgain) == s && Try(s, StepAcceptMessage) == s && Try(s, StepDeliver) == s
            && Try(s, StepTouch) == s
  {
  }

  lemma NothingToDeliver(s: State)
    requires s.udp.Touching?
    ensures Try(s, StepDeliver) == s
  {
  }

  lemma HandlerKeepsLog(s: State)
    ensures HandlerRound(s).log == s.log && HandlerRound(s).clock == s.clock
  {
  }

  /** A step that may not be enabled keeps the invariant too. */
  lemma TryKeeps(s: State, step: Step)
    requires InBounds(Try(s, step))
    ensures InBounds(s) && (Inv(s) ==> Inv(Try(s, step)))
  {
    hide Inv, InBounds, Apply, Enabled;
    if Enabled(s, step) {
      BoundsShrink(s, step);
      if Inv(s) {
        StepKeeps(s, step);
      }
    }
  }

  lemma HelloRoundKeeps(s0: State, s1: State, packet: seq<byte>, from: Address, serverRandom: Random,
                        ciphertext: seq<byte>)
    requires Inv(s0) && s0.udp == Reading && s1 == Try(s0, StepUdpReceive(packet, from)) && s1.udp.Registered?
    requires InBounds(UdpRound(s0, packet, from, serverRandom, ciphertext)) && FreshServerRandom(s0, serverRandom)
    ensures
      var s2 := Try(s1, StepAcceptHello);
      FreshServerRandom(s2, serverRandom) && IndexOk(Try(s2, StepSetCipher(serverRandom)))
  {
    hide Inv, InBounds, Try, FreshServerRandom;
    var s2 := Try(s1, StepAcceptHello);
    var s3 := Try(s2, StepSetCipher(serverRandom));
    var s4 := Try(s3, StepRoutePeer);
    var s5 := Try(s4, StepDrawWelcome);
    TryKeeps(s5, StepSendWelcome(ciphertext));
    TryKeeps(s4, StepDrawWelcome);
    TryKeeps(s3, StepRoutePeer);
    TryKeeps(s2, StepSetCipher(serverRandom));
    TryKeeps(s1, StepAcceptHello);
    TryKeeps(s0, StepUdpReceive(packet, from));
    InvIndex(s3);
    StillFresh(s0, packet, from, serverRandom);
  }

  lemma StillFresh(s: State, packet: seq<byte>, from: Address, serverRandom: Random)
    requires FreshServerRandom(s, serverRandom)
    ensures FreshServerRandom(Try(Try(s, StepUdpReceive(packet, from)), StepAcceptHello), serverRandom)
  {
    hide Advance, PeekHeader, DecodeAloha, Insert;
    var s1 := Try(s, StepUdpReceive(packet, from));
    assert FreshServerRandom(s1, serverRandom);
  }
}
