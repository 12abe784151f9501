/** Key derivation, nonces and the ideal AEAD: internal/protocol/aead.go. */
module Aead {
  import opened Bytes
  import opened Digits

  const RANDOM_LEN: nat := 16

  type Random = r: seq<byte> | |r| == RANDOM_LEN witness seq(RANDOM_LEN, _ => 0)

  datatype Direction = ClientToServer | ServerToClient

  /** HMAC-SHA256 (section 2 of RFC 2104) under the one master key, as an injective function of its input. */
  datatype Key = Hmac(input: seq<byte>)

  function AlohaKey(clientRandom: Random): Key
  {
    Hmac(clientRandom)
  }

  function WelcomeKey(clientRandom: Random, serverRandom: Random): Key
  {
    Hmac(clientRandom + serverRandom)
  }

  function PeerKey(peerID: uint64, clientRandom: Random, serverRandom: Random): Key
  {
    Hmac(BigEndian(peerID, 8) + clientRandom + serverRandom)
  }

  function DirectionCode(d: Direction): uint32
  {
    if d == ClientToServer then 1 else 2
  }

  /** A 4-byte fixed field and an 8-byte counter (section 3.2 of RFC 5116). */
  function Nonce(d: Direction, sequence: uint64): (n: seq<byte>)
    ensures |n| == 12
  {
    BigEndian(DirectionCode(d), 4) + BigEndian(sequence, 8)
  }

  lemma NonceInjective(d: Direction, s: uint64, e: Direction, t: uint64)
    ensures Nonce(d, s) == Nonce(e, t) <==> d == e && s == t
  {
    Widths();
    BigEndianReads(DirectionCode(d), 4);
    BigEndianReads(DirectionCode(e), 4);
    BigEndianReads(s, 8);
    BigEndianReads(t, 8);
    assert Nonce(d, s)[..4] == BigEndian(DirectionCode(d), 4) && Nonce(e, t)[..4] == BigEndian(DirectionCode(e), 4);
    assert Nonce(d, s)[4..] == BigEndian(s, 8) && Nonce(e, t)[4..] == BigEndian(t, 8);
  }

  /** The nonce on the wire of the cipher: three zero bytes, 1 towards the server or 2 towards the client, then the
      sequence with the most significant byte first. */
  lemma NonceLayout(d: Direction, s: uint64)
    ensures Nonce(d, s)[..4] == [0, 0, 0, if d == ClientToServer then 1 else 2]
    ensures MostSignificantFirst(Nonce(d, s)[4..], s)
  {
    hide BigEndian, MostSignificantFirst;
    BigEndianDigits(s, 8);
    OneByteCode(DirectionCode(d));
    assert Nonce(d, s)[4..] == BigEndian(s, 8) && Nonce(d, s)[..4] == BigEndian(DirectionCode(d), 4);
  }

  lemma OneByteCode(code: byte)
    ensures BigEndian(code, 4) == [0, 0, 0, code]
  {
    assert BigEndian(0, 0) == [] && BigEndian(0, 1) == [0];
    assert BigEndian(0, 2) == BigEndian(0, 1) + [0];
    assert BigEndian(0, 3) == BigEndian(0, 2) + [0];
    assert BigEndian(code, 4) == BigEndian(code / 256, 3) + [code % 256];
  }

  /** What each key is derived from, in the order of the hash: the client's random first, the server's second, and the
      peer id, most significant byte first, before both. */
  lemma KeyInputs(id: uint64, client: Random, server: Random)
    ensures AlohaKey(client).input == client
    ensures WelcomeKey(client, server).input[..16] == client && WelcomeKey(client, server).input[16..] == server
    ensures
      var input := PeerKey(id, client, server).input;
      && |input| == 40 && input[8..24] == client && input[24..] == server
      && MostSignificantFirst(input[..8], id)
  {
    BigEndianDigits(id, 8);
    assert PeerKey(id, client, server).input[..8] == BigEndian(id, 8);
  }

  lemma PeerKeyInjective(i: uint64, c: Random, s: Random, j: uint64, d: Random, t: Random)
    ensures PeerKey(i, c, s) == PeerKey(j, d, t) <==> i == j && c == d && s == t
  {
    Widths();
    BigEndianReads(i, 8);
    BigEndianReads(j, 8);
    var a, b := PeerKey(i, c, s).input, PeerKey(j, d, t).input;
    assert a[..8] == BigEndian(i, 8) && b[..8] == BigEndian(j, 8);
    assert a[8..24] == c && b[8..24] == d;
    assert a[24..] == s && b[24..] == t;
  }

  lemma WelcomeKeyInjective(c: Random, s: Random, d: Random, t: Random)
    ensures WelcomeKey(c, s) == WelcomeKey(d, t) <==> c == d && s == t
  {
    var a, b := WelcomeKey(c, s).input, WelcomeKey(d, t).input;
    assert a[..16] == c && b[..16] == d;
    assert a[16..] == s && b[16..] == t;
  }

  /** The inputs of the three derivations have 16, 32 and 40 bytes. */
  lemma KeyKindsDisjoint(i: uint64, c: Random, s: Random, d: Random, t: Random, e: Random)
    ensures AlohaKey(e) != WelcomeKey(d, t) && AlohaKey(e) != PeerKey(i, c, s) && WelcomeKey(d, t) != PeerKey(i, c, s)
  {
    assert |AlohaKey(e).input| == 16 && |WelcomeKey(d, t).input| == 32 && |PeerKey(i, c, s).input| == 40;
  }

  // ---- The ideal AEAD (section 2.2 of RFC 5116) ----

  /** One Seal call: everything that goes in, and the ciphertext with tag that comes out. */
  datatype Sealed = Sealed(key: Key, nonce: seq<byte>, aad: seq<byte>, plain: seq<byte>, ciphertext: seq<byte>)

  /** The bytes that travel: every packet format is its associated data followed by the ciphertext. */
  function Wire(s: Sealed): seq<byte>
  {
    s.aad + s.ciphertext
  }

  predicate Matches(s: Sealed, key: Key, nonce: seq<byte>, aad: seq<byte>, ciphertext: seq<byte>)
  {
    s.key == key && s.nonce == nonce && s.aad == aad && s.ciphertext == ciphertext
  }

  /** The Seal call that produced this ciphertext under this key, nonce and associated data, if any did. */
  function FindSeal(log: seq<Sealed>, key: Key, nonce: seq<byte>, aad: seq<byte>, ciphertext: seq<byte>)
    : (r: Option<nat>)
    ensures r.Some? ==> r.value < |log| && Matches(log[r.value], key, nonce, aad, ciphertext)
    ensures r.None? ==> forall i :: 0 <= i < |log| ==> !Matches(log[i], key, nonce, aad, ciphertext)
  {
    if log == [] then None
    else if Matches(log[|log| - 1], key, nonce, aad, ciphertext) then Some(|log| - 1)
    else FindSeal(log[..|log| - 1], key, nonce, aad, ciphertext)
  }

  /** Open succeeds only on a tuple that was sealed. */
  function Open(log: seq<Sealed>, key: Key, nonce: seq<byte>, aad: seq<byte>, ciphertext: seq<byte>): Option<seq<byte>>
  {
    match FindSeal(log, key, nonce, aad, ciphertext)
    case None => None
    case Some(i) => Some(log[i].plain)
  }

  /** No two Seal calls share a key and nonce. */
  ghost predicate NonceUnique(log: seq<Sealed>)
  {
    forall i, j :: 0 <= i < j < |log| ==> !(log[i].key == log[j].key && log[i].nonce == log[j].nonce)
  }

  /** Opening is a function of what was sealed: one ciphertext never stands for two plaintexts. */
  ghost predicate Decryptable(log: seq<Sealed>)
  {
    forall i, j | 0 <= i < |log| && 0 <= j < |log| ::
      Matches(log[i], log[j].key, log[j].nonce, log[j].aad, log[j].ciphertext) ==> log[i].plain == log[j].plain
  }

  /** Unique nonces are what makes the cipher decryptable, however ciphertexts come out. */
  lemma UniqueNoncesDecrypt(log: seq<Sealed>)
    requires NonceUnique(log)
    ensures Decryptable(log)
  {
    forall i, j | 0 <= i < |log| && 0 <= j < |log|
      && Matches(log[i], log[j].key, log[j].nonce, log[j].aad, log[j].ciphertext)
      ensures log[i].plain == log[j].plain
    {
      assert i < j || j < i || i == j;
    }
  }

  /** Everything sealed can be opened again, later Seal calls notwithstanding. */
  lemma OpenInvertsSeal(log: seq<Sealed>, i: nat)
    requires Decryptable(log) && i < |log|
    ensures Open(log, log[i].key, log[i].nonce, log[i].aad, log[i].ciphertext) == Some(log[i].plain)
  {
    assert Matches(log[i], log[i].key, log[i].nonce, log[i].aad, log[i].ciphertext);
  }

  /** The cipher with the record of what it sealed; the ciphertext is the cipher's own choice. */
  class IdealAead {
    var log: seq<Sealed>

    constructor ()
      ensures log == []
    {
      log := [];
    }

    method Seal(key: Key, d: Direction, sequence: uint64, aad: seq<byte>, plain: seq<byte>, ciphertext: seq<byte>)
      modifies this
      ensures log == old(log) + [Sealed(key, Nonce(d, sequence), aad, plain, ciphertext)]
    {
      var nonce := Nonce(d, sequence);
      log := log + [Sealed(key, nonce, aad, plain, ciphertext)];
    }
  }
}
