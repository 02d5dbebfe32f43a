/** The 8-byte big-endian encoding of unsigned 64-bit integers that the store
    uses for hit counters (Go's binary.BigEndian.PutUint64 and Uint64). */
module BigEndian {

  type byte = b: int | 0 <= b < 256

  const U64Modulus: nat := 0x1_0000_0000_0000_0000

  /** Go's uint64. */
  type uint64 = n: int | 0 <= n < 0x1_0000_0000_0000_0000

  /** 256 to the power k: the weight of a byte k places from the right. */
  function Pow256(k: nat): (p: nat)
    ensures p > 0
  {
    if k == 0 then 1 else 256 * Pow256(k - 1)
  }

  /** The number a byte string denotes when read most significant byte first. */
  function ValueOf(s: seq<byte>): (n: nat)
    ensures n < Pow256(|s|)
  {
    if s == [] then 0 else ValueOf(s[..|s| - 1]) * 256 + s[|s| - 1]
  }

  /** The k lowest-order bytes of n, most significant byte first. */
  function BytesOf(n: nat, k: nat): (s: seq<byte>)
    ensures |s| == k
  {
    if k == 0 then [] else BytesOf(n / 256, k - 1) + [n % 256]
  }

  /** binary.BigEndian.PutUint64 into a fresh 8-byte buffer. */
  function PutUint64(n: uint64): (buf: seq<byte>)
    ensures |buf| == 8
  {
    BytesOf(n, 8)
  }

  /** binary.BigEndian.Uint64: reads the first 8 bytes (Go panics on a shorter slice). */
  function Uint64(buf: seq<byte>): (n: uint64)
    requires |buf| >= 8
  {
    assert Pow256(8) == U64Modulus;
    ValueOf(buf[..8])
  }

  lemma {:induction false} ValueOfBytesOf(n: nat, k: nat)
    requires n < Pow256(k)
    ensures ValueOf(BytesOf(n, k)) == n
  {
    if k > 0 {
      var s := BytesOf(n, k);
      assert s[..k - 1] == BytesOf(n / 256, k - 1);
      ValueOfBytesOf(n / 256, k - 1);
    }
  }

  lemma {:induction false} BytesOfValueOf(s: seq<byte>)
    ensures BytesOf(ValueOf(s), |s|) == s
  {
    if s != [] {
      var k := |s|;
      var v := ValueOf(s[..k - 1]);
      assert (v * 256 + s[k - 1]) / 256 == v;
      assert (v * 256 + s[k - 1]) % 256 == s[k - 1];
      BytesOfValueOf(s[..k - 1]);
    }
  }

  /** Decoding an encoded counter gives the counter back. */
  lemma DecodeEncode(n: uint64)
    ensures Uint64(PutUint64(n)) == n
  {
    assert Pow256(8) == U64Modulus;
    ValueOfBytesOf(n, 8);
    assert PutUint64(n)[..8] == PutUint64(n);
  }

  /** Encoding a decoded 8-byte buffer gives the buffer back, so the encoding is a bijection. */
  lemma EncodeDecode(buf: seq<byte>)
    requires |buf| == 8
    ensures PutUint64(Uint64(buf)) == buf
  {
    assert buf[..8] == buf;
    BytesOfValueOf(buf);
  }

  lemma {:induction false} ValueOfCons(b: byte, s: seq<byte>)
    ensures ValueOf([b] + s) == b * Pow256(|s|) + ValueOf(s)
  {
    if s != [] {
      var k := |s|;
      assert ([b] + s)[..k] == [b] + s[..k - 1];
      ValueOfCons(b, s[..k - 1]);
      calc {
        ValueOf([b] + s);
        ValueOf([b] + s[..k - 1]) * 256 + s[k - 1];
        (b * Pow256(k - 1) + ValueOf(s[..k - 1])) * 256 + s[k - 1];
        b * (Pow256(k - 1) * 256) + (ValueOf(s[..k - 1]) * 256 + s[k - 1]);
        b * Pow256(k) + ValueOf(s);
      }
    }
  }

  /** Most significant byte first: the first byte of the buffer carries weight 2^56
      and the last byte weight 1. */
  lemma MostSignificantFirst(buf: seq<byte>)
    requires |buf| >= 8
    ensures Uint64(buf) == buf[0] * 0x100_0000_0000_0000 + ValueOf(buf[1..8])
    ensures Uint64(buf) % 256 == buf[7]
  {
    assert buf[..8] == [buf[0]] + buf[1..8];
    ValueOfCons(buf[0], buf[1..8]);
    assert Pow256(7) == 0x100_0000_0000_0000;
    assert buf[..8][..7] == buf[..7];
  }

  /** The encoder puts the top byte of the counter first and its low byte last. */
  lemma PutUint64Digits(n: uint64)
    ensures PutUint64(n)[0] == n / 0x100_0000_0000_0000
    ensures PutUint64(n)[7] == n % 256
  {
    var buf := PutUint64(n);
    DecodeEncode(n);
    MostSignificantFirst(buf);
    assert ValueOf(buf[1..8]) < 0x100_0000_0000_0000 by {
      assert Pow256(7) == 0x100_0000_0000_0000;
    }
  }
}
