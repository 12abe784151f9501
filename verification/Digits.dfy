/** Which byte of an encoding stands for which power of 256. */
module Digits {
  import opened Bytes
  import Bits

  /** Network byte order. */
  ghost predicate MostSignificantFirst(b: seq<byte>, v: nat)
  {
    forall i :: 0 <= i < |b| ==> b[i] == v / Pow256(|b| - 1 - i) % 256
  }

  /** The byte order of the supported hosts. */
  ghost predicate LeastSignificantFirst(b: seq<byte>, v: nat)
  {
    forall i :: 0 <= i < |b| ==> b[i] == v / Pow256(i) % 256
  }

  lemma DivideTwice(v: nat, n: nat)
    ensures v / 256 / Pow256(n) == v / Pow256(n + 1)
  {
    var d := Pow256(n);
    var q, r := v / 256 / d, v / 256 % d;
    assert 256 * (d * q + r) == (256 * d) * q + 256 * r;
    Bits.ModuloUnique(v, 256 * d, q, 256 * r + v % 256);
  }

  lemma {:induction false} BigEndianDigits(v: nat, n: nat)
    ensures MostSignificantFirst(BigEndian(v, n), v)
  {
    if n > 0 {
      BigEndianDigits(v / 256, n - 1);
      var b, high := BigEndian(v, n), BigEndian(v / 256, n - 1);
      forall i | 0 <= i < n ensures b[i] == v / Pow256(n - 1 - i) % 256 {
        if i < n - 1 {
          assert b[i] == high[i];
          DivideTwice(v, n - 2 - i);
        }
      }
    }
  }

  lemma {:induction false} LittleEndianDigits(v: nat, n: nat)
    ensures LeastSignificantFirst(LittleEndian(v, n), v)
  {
    if n > 0 {
      LittleEndianDigits(v / 256, n - 1);
      var b, high := LittleEndian(v, n), LittleEndian(v / 256, n - 1);
      forall i | 0 <= i < n ensures b[i] == v / Pow256(i) % 256 {
        if i > 0 {
          assert b[i] == high[i - 1];
          DivideTwice(v, i - 1);
        }
      }
    }
  }

  lemma LastOctet(b: seq<byte>, x: byte)
    ensures FromBigEndian(b + [x]) == 256 * FromBigEndian(b) + x
  {
    assert (b + [x])[..|b|] == b;
  }

  lemma FirstOctet(x: byte, b: seq<byte>)
    ensures FromLittleEndian([x] + b) == x + 256 * FromLittleEndian(b)
  {
    assert ([x] + b)[1..] == b;
  }

  lemma TwoOctets(a: byte, b: byte)
    ensures ReadUint16([a, b]) == 256 * a + b
    ensures ReadNative16([a, b]) == a + 256 * b
  {
    LastOctet([], a);
    LastOctet([a], b);
    FirstOctet(b, []);
    FirstOctet(a, [b]);
    assert [] + [a] == [a] && [a] + [b] == [a, b] && [b] + [] == [b];
  }

  lemma FourOctets(a: byte, b: byte, c: byte, d: byte)
    ensures ReadUint32([a, b, c, d]) == 0x100_0000 * a + 0x1_0000 * b + 256 * c + d
    ensures ReadNative32([a, b, c, d]) == a + 256 * b + 0x1_0000 * c + 0x100_0000 * d
  {
    hide FromBigEndian, FromLittleEndian;
    TwoOctets(a, b);
    LastOctet([a, b], c);
    LastOctet([a, b, c], d);
    assert [a, b] + [c] == [a, b, c] && [a, b, c] + [d] == [a, b, c, d];
    TwoOctets(c, d);
    FirstOctet(b, [c, d]);
    FirstOctet(a, [b, c, d]);
    assert [b] + [c, d] == [b, c, d] && [a] + [b, c, d] == [a, b, c, d];
  }
}
