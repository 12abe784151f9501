/** Tunnel addresses: allocateTunnelIP and validIPRange of internal/server/handler.go,
    the address part of normalize and extractIPv4Dst of internal/server/server.go. */
module Addressing {
  import opened Bytes
  import opened Bits

  /** The parsed VPN network CIDR. */
  datatype Network = Network(base: uint32, prefix: int)

  function Size(n: Network): (size: int)
    requires 0 <= n.prefix <= 32
    ensures size > 0
  {
    Pow2(32 - n.prefix)
  }

  /** What net.ParseCIDR and normalize let through: a masked IPv4 network with a prefix of at most 30. */
  predicate Normalized(n: Network)
  {
    0 <= n.prefix <= 30 && n.base % Size(n) == 0
  }

  function ServerAddress(n: Network): uint32
  {
    (n.base + 1) % TWO_32
  }

  predicate ValidIPRange(peerID: uint64, prefix: int)
  {
    if peerID == 0 then false
    else if prefix < 0 || prefix > 30 then false
    else
      var total := Pow2(32 - prefix);
      var maxPeerID := total - 3;
      peerID <= maxPeerID
  }

  /** base + 1 + uint32(peerID), in wrapping uint32 arithmetic. */
  function Allocate(n: Network, peerID: uint64): Option<uint32>
  {
    if !ValidIPRange(peerID, n.prefix) then None
    else Some(((n.base + 1) % TWO_32 + peerID % TWO_32) % TWO_32)
  }

  lemma Pow2At32()
    ensures Pow2(32) == TWO_32
  {
    hide Pow2;
    Pow2At8(); Pow2Adds(8, 8); Pow2Adds(16, 16);
  }

  /** A masked network ends at or before 2^32, and has room for network, server and broadcast addresses. */
  lemma NetworkFits(n: Network)
    requires Normalized(n)
    ensures n.base + Size(n) <= TWO_32 && Size(n) >= 4
  {
    Pow2At32();
    Pow2Adds(32 - n.prefix, n.prefix);
    assert Pow2(32 - n.prefix) == 2 * Pow2(31 - n.prefix) && Pow2(31 - n.prefix) == 2 * Pow2(30 - n.prefix);
    BlockFits(n.base, Size(n), Pow2(n.prefix));
  }

  /** An aligned block that starts inside a whole number of blocks ends inside it. */
  lemma BlockFits(base: nat, size: int, blocks: nat)
    requires size > 0 && base % size == 0 && base < size * blocks
    ensures base + size <= size * blocks
  {
    var q := base / size;
    assert base == size * q;
    if q >= blocks {
      MultipleMonotone(size, blocks, q);
    } else {
      MultipleMonotone(size, q + 1, blocks);
      assert size * (q + 1) == base + size;
    }
  }

  lemma SameBlock(base: nat, size: int, offset: nat)
    requires size > 0 && base % size == 0 && offset < size
    ensures (base + offset) / size == base / size
  {
    assert base == size * (base / size);
    ModuloUnique(base + offset, size, base / size, offset);
  }

  lemma PrefixFits(n: Network)
    requires Normalized(n)
    ensures 0 <= n.prefix <= 30
  {
  }

  /** An allocated address is base + 1 + id without wrap-around; it lies strictly between the
      server address and the broadcast address. */
  lemma AllocateStaysInside(n: Network, peerID: uint64)
    requires Normalized(n)
    ensures Allocate(n, peerID).Some? <==> 1 <= peerID <= Size(n) - 3
    ensures Allocate(n, peerID).Some? ==>
              var ip := Allocate(n, peerID).value;
              && ip == n.base + 1 + peerID
              && n.base < ServerAddress(n) < ip < n.base + Size(n) - 1 < TWO_32
  {
    hide Pow2, Normalized;
    PrefixFits(n);
    NetworkFits(n);
    if ValidIPRange(peerID, n.prefix) {
      NoWrap(n.base, Size(n), peerID);
    }
  }

  /** The address has the network's own prefix. */
  lemma AllocateKeepsPrefix(n: Network, peerID: uint64)
    requires Normalized(n) && Allocate(n, peerID).Some?
    ensures Allocate(n, peerID).value / Size(n) == n.base / Size(n)
  {
    hide Allocate, Size;
    AllocateStaysInside(n, peerID);
    SameBlock(n.base, Size(n), 1 + peerID);
  }

  lemma NoWrap(base: uint32, size: int, peerID: uint64)
    requires base + size <= TWO_32 && 1 <= peerID <= size - 3
    ensures (base + 1) % TWO_32 == base + 1
    ensures ((base + 1) % TWO_32 + peerID % TWO_32) % TWO_32 == base + 1 + peerID
  {
  }

  /** Peer ids and the free host addresses correspond one to one. */
  lemma AllocateIsBijective(n: Network, ip: uint32)
    requires Normalized(n)
    ensures (exists id: uint64 :: Allocate(n, id) == Some(ip)) <==> ServerAddress(n) < ip < n.base + Size(n) - 1
    ensures forall id: uint64, other: uint64 :: Allocate(n, id) == Some(ip) && Allocate(n, other) == Some(ip) ==>
              id == other
  {
    NetworkFits(n);
    forall id: uint64 | Allocate(n, id) == Some(ip)
      ensures id == ip - n.base - 1 && ServerAddress(n) < ip < n.base + Size(n) - 1
    {
      AllocateStaysInside(n, id);
    }
    if ServerAddress(n) < ip < n.base + Size(n) - 1 {
      var id: uint64 := ip - n.base - 1;
      AllocateStaysInside(n, id);
      assert Allocate(n, id) == Some(ip);
    }
  }

  // ---- The inner IPv4 destination (section 3.1 of RFC 791) ----

  datatype Destination = Dst(addr: uint32) | Unsupported | Malformed

  function ExtractDst(packet: seq<byte>): Destination
  {
    if |packet| < 20 then Malformed
    else if packet[0] / 16 != 4 then Unsupported
    else
      var ihl := packet[0] % 16;
      if ihl < 5 then Malformed
      else
        var headerLen := ihl * 4;
        if |packet| < headerLen then Malformed
        else
          var totalLen := ReadUint16(packet[2..4]);
          if totalLen < headerLen then Malformed
          else if |packet| < totalLen then Malformed
          else Dst(ReadUint32(packet[16..20]))
  }
}
