/** The server's peers and their store as objects: internal/server/peer.go, internal/server/peer_store.go. */
module PeerStore {
  import opened Bytes
  import opened Aead
  import opened PeerIndex
  import ReplayWindow

  class Peer {
    const id: uint64
    const addr: Address
    const clientRandom: Random
    const clientReplayWindow: ReplayWindow.SlidingWindow
    var tunnelIP: TunnelIP
    var cipher: Option<Key>
    var serverSendSequence: uint64
    var lastSeen: int

    constructor (id: uint64, addr: Address, clientRandom: Random, now: int)
      ensures this.id == id && this.addr == addr && this.clientRandom == clientRandom && lastSeen == now
      ensures tunnelIP == Unset && cipher == None && serverSendSequence == 0
      ensures fresh(clientReplayWindow) && clientReplayWindow.View() == ReplayWindow.EMPTY_WINDOW
    {
      this.id, this.addr, this.clientRandom, lastSeen := id, addr, clientRandom, now;
      tunnelIP, cipher, serverSendSequence := Unset, None, 0;
      clientReplayWindow := new ReplayWindow.SlidingWindow();
    }

    function Info(): Info
      reads this
    {
      PeerIndex.Info(id, clientRandom, tunnelIP)
    }

    method SetCipher(key: Key)
      modifies this`cipher
      ensures cipher == Some(key)
    {
      cipher := Some(key);
    }

    method NextSendSequence() returns (sequence: uint64)
      modifies this`serverSendSequence
      ensures sequence == serverSendSequence == (old(serverSendSequence) + 1) % TWO_64
    {
      serverSendSequence := (serverSendSequence + 1) % TWO_64;
      return serverSendSequence;
    }

    method AcceptClientSequence(sequence: uint64) returns (v: ReplayWindow.Verdict)
      modifies clientReplayWindow
      ensures (clientReplayWindow.View(), v) == ReplayWindow.Advance(old(clientReplayWindow.View()), sequence)
    {
      v := clientReplayWindow.Accept(sequence);
    }

    method Touch(now: int)
      modifies this`lastSeen
      ensures lastSeen == now
    {
      lastSeen := now;
    }

    predicate Expired(now: int, timeout: int)
      reads this
    {
      now - lastSeen > timeout
    }
  }

  class Store {
    var byID: map<uint64, Peer>
    var byTunnelIP: map<TunnelIP, Peer>
    var byClientRandom: map<Random, Peer>
    var nextID: uint64

    constructor ()
      ensures View() == Empty() && Valid()
    {
      byID, byTunnelIP, byClientRandom, nextID := map[], map[], map[], 1;
    }

    function View(): Index<Peer>
      reads this
    {
      Index(byID, byTunnelIP, byClientRandom, nextID)
    }

    /** What the live peers say about themselves. */
    ghost function Live(): map<Peer, Info>
      reads this, byID.Values
    {
      map p | p in byID.Values :: p.Info()
    }

    ghost predicate Valid()
      reads this, byID.Values
    {
      Agrees(View(), Live())
    }

    ghost function ExpiredPeers(now: int, timeout: int): set<Peer>
      reads this, byID.Values
    {
      set p | p in byID.Values && p.Expired(now, timeout)
    }

    method Register(addr: Address, clientRandom: Random, now: int) returns (p: Peer, created: bool)
      requires Valid()
      modifies this
      ensures created == (clientRandom !in old(byClientRandom))
      ensures !created ==> p == old(byClientRandom[clientRandom]) && View() == old(View())
      ensures created ==> fresh(p) && View() == Insert(old(View()), p, clientRandom)
      ensures created ==> p.Info() == Info(old(nextID), clientRandom, Unset) && p.addr == addr && p.lastSeen == now
      ensures created ==> p.cipher == None && p.serverSendSequence == 0
      ensures created ==> fresh(p.clientReplayWindow) && p.clientReplayWindow.View() == ReplayWindow.EMPTY_WINDOW
      ensures created && old(nextID) + 1 < TWO_64 ==> Valid() && Live() == old(Live())[p := p.Info()]
      ensures !created ==> Valid()
    {
      if clientRandom in byClientRandom {
        return byClientRandom[clientRandom], false;
      }
      var id := nextID;
      ghost var before, live := View(), Live();
      p := new Peer(id, addr, clientRandom, now);
      nextID := (nextID + 1) % TWO_64;
      byID := byID[id := p];
      byClientRandom := byClientRandom[clientRandom := p];
      created := true;
      if before.nextID + 1 < TWO_64 {
        InsertLive(before, live, p, clientRandom, Live());
      }
    }

    method GetByID(id: uint64) returns (p: Option<Peer>)
      ensures p == if id in byID then Some(byID[id]) else None
    {
      return if id in byID then Some(byID[id]) else None;
    }

    method GetByTunnelIP(ip: TunnelIP) returns (p: Option<Peer>)
      ensures p == if ip in byTunnelIP then Some(byTunnelIP[ip]) else None
    {
      return if ip in byTunnelIP then Some(byTunnelIP[ip]) else None;
    }

    method SetPeerTunnelIP(id: uint64, ip: TunnelIP) returns (r: Routed<Peer>)
      requires Valid() && ip.V4?
      modifies this`byTunnelIP, if id in byID then {byID[id]} else {}
      ensures r == SetTunnelIP(old(View()), id, ip)
      ensures View() == (if r.Set? then r.index else old(View()))
      ensures r.Set? ==> r.peer.tunnelIP == ip
      ensures r.Set? ==> r.peer.cipher == old(r.peer.cipher) && r.peer.lastSeen == old(r.peer.lastSeen)
      ensures r.Set? ==> r.peer.serverSendSequence == old(r.peer.serverSendSequence)
      ensures !r.Set? ==> unchanged(byID.Values)
      ensures !r.Set? || old(byID[id].tunnelIP) == Unset ==> Valid()
    {
      if id !in byID {
        return NotFound;
      }
      var p := byID[id];
      if ip in byTunnelIP {
        return AlreadyExists;
      }
      ghost var before, live := View(), Live();
      p.tunnelIP := ip;
      byTunnelIP := byTunnelIP[ip := p];
      r := Set(View(), p);
      if live[p].tunnelIP == Unset {
        SetTunnelIPAgrees(before, live, id, ip);
        assert Described(before, live, id);
        assert Live() == live[p := live[p].(tunnelIP := ip)];
      }
    }

    /** The three delete calls for one expired peer. */
    method DeleteEntry(peer: Peer)
      modifies this
      ensures View() == WithoutKeys(old(View()), peer.Info())
    {
      byID := byID - {peer.id};
      byTunnelIP := byTunnelIP - {peer.tunnelIP};
      byClientRandom := byClientRandom - {peer.clientRandom};
    }

    /** The entries of byID are visited in an arbitrary order while they are being deleted. */
    method DeleteExpired(now: int, timeout: int) returns (count: nat)
      requires Valid()
      modifies this
      ensures Valid()
      ensures View() == Restrict(old(View()), old(ExpiredPeers(now, timeout)))
      ensures count == |old(ExpiredPeers(now, timeout))|
    {
      hide Agrees, Remove, Visited, Restrict;
      ghost var before, live := View(), Live();
      ghost var expired := ExpiredPeers(now, timeout);
      SweepStart(before, live, expired);
      var todo := byID.Keys;
      count := 0;
      while todo != {}
        invariant todo <= before.byID.Keys
        invariant View() == Remove(before, live, Visited(before, live, todo) * expired)
        invariant count == |Visited(before, live, todo) * expired|
        decreases todo
      {
        var id :| id in todo;
        VisitOne(before, live, todo, id, expired);
        var peer := byID[id];
        todo := todo - {id};
        if peer.Expired(now, timeout) {
          DeleteEntry(peer);
          count := count + 1;
        }
      }
      SweepDone(before, live, expired, View(), Live());
    }
  }

  function WithoutKeys<R>(ix: Index<R>, gone: Info): Index<R>
  {
    Index(ix.byID - {gone.id}, ix.byTunnelIP - {gone.tunnelIP}, ix.byClientRandom - {gone.clientRandom}, ix.nextID)
  }

  /** The peers whose ids are not still to be visited. */
  ghost function Visited<R>(ix: Index<R>, info: map<R, Info>, todo: set<uint64>): set<R>
  {
    set p | p in info && IsLive(ix, info, p) && info[p].id !in todo
  }

  lemma VisitOne<R>(ix: Index<R>, info: map<R, Info>, todo: set<uint64>, id: uint64, expired: set<R>)
    requires Agrees(ix, info) && id in todo && todo <= ix.byID.Keys
    ensures
      var p, dead := ix.byID[id], Visited(ix, info, todo) * expired;
      && p in info && info[p].id == id && p !in dead
      && id in Remove(ix, info, dead).byID && Remove(ix, info, dead).byID[id] == p
      && Visited(ix, info, todo - {id}) * expired == (if p in expired then dead + {p} else dead)
      && Remove(ix, info, dead + {p}) == WithoutKeys(Remove(ix, info, dead), info[p])
  {
    assert Described(ix, info, id);
    RemoveOneMore(ix, info, Visited(ix, info, todo) * expired, ix.byID[id]);
  }

  lemma SweepStart<R>(ix: Index<R>, info: map<R, Info>, expired: set<R>)
    ensures Visited(ix, info, ix.byID.Keys) * expired == {}
    ensures Remove(ix, info, {}) == ix
  {
  }

  /** When every id has been visited, exactly the expired peers' entries are gone. */
  lemma SweepDone<R>(ix: Index<R>, info: map<R, Info>, expired: set<R>, jx: Index<R>, after: map<R, Info>)
    requires Agrees(ix, info) && info.Keys == ix.byID.Values && expired <= info.Keys
    requires jx == Remove(ix, info, Visited(ix, info, {}) * expired)
    requires after.Keys == jx.byID.Values && forall p :: p in info && p in after ==> after[p] == info[p]
    ensures Visited(ix, info, {}) * expired == expired
    ensures jx == Restrict(ix, expired) && Agrees(jx, after)
  {
    forall p | p in info ensures IsLive(ix, info, p) {
      var id :| id in ix.byID && ix.byID[id] == p;
      assert Described(ix, info, id);
    }
    assert Visited(ix, info, {}) * expired == expired;
    RemoveIsRestrict(ix, info, expired);
    LiveNarrows(jx, info, after);
  }

  /** register, seen from the live peers: they are the old ones and the new one. */
  lemma InsertLive<R>(ix: Index<R>, info: map<R, Info>, p: R, clientRandom: Random, after: map<R, Info>)
    requires Agrees(ix, info) && p !in info && clientRandom !in ix.byClientRandom && ix.nextID + 1 < TWO_64
    requires info.Keys == ix.byID.Values && after.Keys == Insert(ix, p, clientRandom).byID.Values
    requires forall q :: q in info && q in after ==> after[q] == info[q]
    requires p in after ==> after[p] == Info(ix.nextID, clientRandom, Unset)
    ensures after == info[p := Info(ix.nextID, clientRandom, Unset)]
    ensures Agrees(Insert(ix, p, clientRandom), after)
  {
    var jx := Insert(ix, p, clientRandom);
    assert jx.byID[ix.nextID] == p;
    assert ix.nextID !in ix.byID;
    forall q | q in info ensures q in after {
      var i :| i in ix.byID && ix.byID[i] == q;
      assert jx.byID[i] == q;
    }
    InsertAgrees(ix, info, p, clientRandom);
  }

  lemma RemoveOneMore<R>(ix: Index<R>, info: map<R, Info>, dead: set<R>, p: R)
    requires dead <= info.Keys && p in info
    ensures Remove(ix, info, dead + {p}) == WithoutKeys(Remove(ix, info, dead), info[p])
  {
    assert (set q | q in dead + {p} :: info[q].id) == (set q | q in dead :: info[q].id) + {info[p].id};
    assert (set q | q in dead + {p} :: info[q].tunnelIP) ==
           (set q | q in dead :: info[q].tunnelIP) + {info[p].tunnelIP};
    assert (set q | q in dead + {p} :: info[q].clientRandom) ==
           (set q | q in dead :: info[q].clientRandom) + {info[p].clientRandom};
  }

  /** Agreement only depends on what is said about the live peers. */
  lemma LiveNarrows<R>(ix: Index<R>, info: map<R, Info>, fewer: map<R, Info>)
    requires Agrees(ix, info)
    requires forall id :: id in ix.byID ==> ix.byID[id] in fewer
    requires forall p :: p in fewer ==> p in info && fewer[p] == info[p]
    ensures Agrees(ix, fewer)
  {
    forall id | id in ix.byID ensures Described(ix, fewer, id) {
      assert Described(ix, info, id);
    }
    forall q | IsLive(ix, info, q) ensures IsLive(ix, fewer, q) {
    }
  }
}
