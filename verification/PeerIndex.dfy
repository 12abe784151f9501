/** The three maps of the server's peer store, as values: internal/server/peer_store.go.
    R is whatever the maps point at: Peer objects in PeerStore, heap positions in Session. */
module PeerIndex {
  import opened Bytes
  import opened Aead

  /** netip.Addr: the zero value, or an IPv4 address. */
  datatype TunnelIP = Unset | V4(addr: uint32)

  /** net.UDPAddr */
  datatype Address = Address(ip: uint32, port: uint16)

  datatype Index<R> = Index(
    byID: map<uint64, R>,
    byTunnelIP: map<TunnelIP, R>,
    byClientRandom: map<Random, R>,
    nextID: uint64)

  /** What the indexes may say about one peer. */
  datatype Info = Info(id: uint64, clientRandom: Random, tunnelIP: TunnelIP)

  /** The three indexes describe the same live peers. */
  ghost predicate Agrees<R>(ix: Index<R>, info: map<R, Info>)
  {
    && (forall id :: id in ix.byID ==> id < ix.nextID && Described(ix, info, id))
    && (forall random :: random in ix.byClientRandom ==>
          ix.byClientRandom[random] in info
          && info[ix.byClientRandom[random]].clientRandom == random
          && IsLive(ix, info, ix.byClientRandom[random]))
    && (forall ip :: ip in ix.byTunnelIP ==>
          ip.V4? && ix.byTunnelIP[ip] in info
          && info[ix.byTunnelIP[ip]].tunnelIP == ip
          && IsLive(ix, info, ix.byTunnelIP[ip]))
  }

  /** The byID entry is found again under its own client random and tunnel IP. */
  ghost predicate Described<R>(ix: Index<R>, info: map<R, Info>, id: uint64)
    requires id in ix.byID
  {
    var p := ix.byID[id];
    && p in info && info[p].id == id
    && info[p].clientRandom in ix.byClientRandom && ix.byClientRandom[info[p].clientRandom] == p
    && (info[p].tunnelIP.V4? ==> info[p].tunnelIP in ix.byTunnelIP && ix.byTunnelIP[info[p].tunnelIP] == p)
  }

  ghost predicate IsLive<R>(ix: Index<R>, info: map<R, Info>, p: R)
  {
    p in info && info[p].id in ix.byID && ix.byID[info[p].id] == p
  }

  function Empty<R>(): Index<R>
  {
    Index(map[], map[], map[], 1)
  }

  /** register, on a client random that is not in use: the counter wraps like any uint64. */
  function Insert<R>(ix: Index<R>, p: R, clientRandom: Random): Index<R>
  {
    ix.(byID := ix.byID[ix.nextID := p],
        byClientRandom := ix.byClientRandom[clientRandom := p],
        nextID := (ix.nextID + 1) % TWO_64)
  }

  datatype Routed<R> = NotFound | AlreadyExists | Set(index: Index<R>, peer: R)

  function SetTunnelIP<R>(ix: Index<R>, id: uint64, ip: TunnelIP): Routed<R>
  {
    if id !in ix.byID then NotFound
    else if ip in ix.byTunnelIP then AlreadyExists
    else Set(ix.(byTunnelIP := ix.byTunnelIP[ip := ix.byID[id]]), ix.byID[id])
  }

  /** deleteExpired: each dead peer's own id, tunnel IP and client random are deleted as keys. */
  function Remove<R(==)>(ix: Index<R>, info: map<R, Info>, dead: set<R>): Index<R>
    requires dead <= info.Keys
  {
    Index(ix.byID - (set p | p in dead :: info[p].id),
          ix.byTunnelIP - (set p | p in dead :: info[p].tunnelIP),
          ix.byClientRandom - (set p | p in dead :: info[p].clientRandom),
          ix.nextID)
  }

  /** Keeping exactly the entries that point at a survivor. */
  function Restrict<R(==)>(ix: Index<R>, dead: set<R>): Index<R>
  {
    Index(map id | id in ix.byID && ix.byID[id] !in dead :: ix.byID[id],
          map ip | ip in ix.byTunnelIP && ix.byTunnelIP[ip] !in dead :: ix.byTunnelIP[ip],
          map random | random in ix.byClientRandom && ix.byClientRandom[random] !in dead :: ix.byClientRandom[random],
          ix.nextID)
  }

  lemma InsertAgrees<R>(ix: Index<R>, info: map<R, Info>, p: R, clientRandom: Random)
    requires Agrees(ix, info) && p !in info && clientRandom !in ix.byClientRandom
    requires ix.nextID + 1 < TWO_64
    ensures Agrees(Insert(ix, p, clientRandom), info[p := Info(ix.nextID, clientRandom, Unset)])
  {
    var jx, after := Insert(ix, p, clientRandom), info[p := Info(ix.nextID, clientRandom, Unset)];
    forall id | id in jx.byID ensures id < jx.nextID && Described(jx, after, id) {
      if id != ix.nextID {
        assert Described(ix, info, id);
      }
    }
    forall q | IsLive(ix, info, q) ensures IsLive(jx, after, q) {
    }
  }

  /** Giving a live peer its first tunnel IP keeps the indexes in agreement. */
  lemma SetTunnelIPAgrees<R>(ix: Index<R>, info: map<R, Info>, id: uint64, ip: TunnelIP)
    requires Agrees(ix, info) && ip.V4? && SetTunnelIP(ix, id, ip).Set?
    requires ix.byID[id] in info && info[ix.byID[id]].tunnelIP == Unset
    ensures
      var p := ix.byID[id];
      Agrees(SetTunnelIP(ix, id, ip).index, info[p := info[p].(tunnelIP := ip)])
  {
    var p := ix.byID[id];
    var jx, after := SetTunnelIP(ix, id, ip).index, info[p := info[p].(tunnelIP := ip)];
    assert Described(ix, info, id);
    forall i | i in jx.byID ensures Described(jx, after, i) {
      assert Described(ix, info, i);
    }
    forall q | IsLive(ix, info, q) ensures IsLive(jx, after, q) {
    }
  }

  /** A second, different tunnel IP for the same peer would leave its first key behind. */
  lemma SecondTunnelIPDisagrees<R>(ix: Index<R>, info: map<R, Info>, id: uint64, ip: TunnelIP)
    requires Agrees(ix, info) && ip.V4? && SetTunnelIP(ix, id, ip).Set?
    requires ix.byID[id] in info && info[ix.byID[id]].tunnelIP.V4?
    ensures
      var p := ix.byID[id];
      !Agrees(SetTunnelIP(ix, id, ip).index, info[p := info[p].(tunnelIP := ip)])
  {
    var p := ix.byID[id];
    assert Described(ix, info, id);
    var stale := info[p].tunnelIP;
    assert stale in SetTunnelIP(ix, id, ip).index.byTunnelIP;
  }

  /** Deleting the dead peers' keys removes their entries and nobody else's. */
  lemma RemoveIsRestrict<R>(ix: Index<R>, info: map<R, Info>, dead: set<R>)
    requires Agrees(ix, info) && dead <= info.Keys
    requires forall p :: p in dead ==> IsLive(ix, info, p)
    ensures Remove(ix, info, dead) == Restrict(ix, dead)
    ensures Agrees(Remove(ix, info, dead), info)
    ensures forall p :: IsLive(ix, info, p) ==> (IsLive(Remove(ix, info, dead), info, p) <==> p !in dead)
  {
    var jx := Remove(ix, info, dead);
    forall id | id in ix.byID ensures id in jx.byID <==> ix.byID[id] !in dead {
      assert Described(ix, info, id);
    }
    forall random | random in ix.byClientRandom
      ensures random in jx.byClientRandom <==> ix.byClientRandom[random] !in dead
    {
      if p :| p in dead && info[p].clientRandom == random {
        assert Described(ix, info, info[p].id);
      }
    }
    forall ip | ip in ix.byTunnelIP
      ensures ip in jx.byTunnelIP <==> ix.byTunnelIP[ip] !in dead
    {
      if p :| p in dead && info[p].tunnelIP == ip {
        assert Described(ix, info, info[p].id);
      }
    }
    assert jx == Restrict(ix, dead);
    forall id | id in jx.byID ensures Described(jx, info, id) {
      assert Described(ix, info, id);
    }
  }

  /** Looking a peer up by client random or tunnel IP is the same as scanning byID for it. */
  lemma LookupIsScan<R>(ix: Index<R>, info: map<R, Info>, p: R, random: Random, ip: TunnelIP)
    requires Agrees(ix, info) && ip.V4?
    ensures random in ix.byClientRandom && ix.byClientRandom[random] == p
            <==> IsLive(ix, info, p) && info[p].clientRandom == random
    ensures ip in ix.byTunnelIP && ix.byTunnelIP[ip] == p
            <==> IsLive(ix, info, p) && info[p].tunnelIP == ip
  {
    if IsLive(ix, info, p) {
      assert Described(ix, info, info[p].id);
    }
  }

  /** Two live peers never share an id, a client random or a tunnel IP. */
  lemma LivePeersDistinct<R>(ix: Index<R>, info: map<R, Info>, p: R, q: R)
    requires Agrees(ix, info) && IsLive(ix, info, p) && IsLive(ix, info, q) && p != q
    ensures info[p].id != info[q].id && info[p].clientRandom != info[q].clientRandom
    ensures info[p].tunnelIP == info[q].tunnelIP ==> info[p].tunnelIP == Unset
  {
    assert Described(ix, info, info[p].id) && Described(ix, info, info[q].id);
  }
}
