/** Byte strings, and the 4-byte big-endian numbers the wire formats use. */
module Bytes {
  import opened Arithmetic

  newtype byte = x: int | 0 <= x < 256

  type bytes = seq<byte>

  const TWO_TO_32: int := 0x1_0000_0000

  /** The numbers `to_bytes(4, "big")` and `struct.pack(">I", _)` accept. */
  type u32 = x: int | 0 <= x < TWO_TO_32

  function BigEndian(n: u32): (b: bytes)
    ensures |b| == 4 && b[0] as int == n / 0x100_0000 && b[3] as int == n % 0x100
  {
    [(n / 0x100_0000) as byte, (n / 0x1_0000 % 0x100) as byte, (n / 0x100 % 0x100) as byte, (n % 0x100) as byte]
  }

  function FromBigEndian(b: bytes): u32
    requires |b| == 4
  {
    b[0] as int * 0x100_0000 + b[1] as int * 0x1_0000 + b[2] as int * 0x100 + b[3] as int
  }

  lemma BytesOfNumber(b: bytes)
    requires |b| == 4
    ensures BigEndian(FromBigEndian(b)) == b
  {
    var b0, b1, b2, b3 := b[0] as int, b[1] as int, b[2] as int, b[3] as int;
    var m := FromBigEndian(b);
    ModOf(0x100_0000, b0, b1 * 0x1_0000 + b2 * 0x100 + b3);
    ModOf(0x1_0000, b0 * 0x100 + b1, b2 * 0x100 + b3);
    ModOf(0x100, b0 * 0x1_0000 + b1 * 0x100 + b2, b3);
    ModOf(0x100, b0, b1);
    ModOf(0x100, b0 * 0x100 + b1, b2);
    assert BigEndian(m) == [b[0], b[1], b[2], b[3]];
  }

  lemma NumberOfBytes(n: u32)
    ensures FromBigEndian(BigEndian(n)) == n
  {
    assert n / 0x1_0000 == n / 0x100_0000 * 0x100 + n / 0x1_0000 % 0x100;
    assert n / 0x100 == n / 0x1_0000 * 0x100 + n / 0x100 % 0x100;
  }

  /** The two conversions are inverse to each other, in both directions. */
  lemma BigEndianRoundTrip(n: u32, b: bytes)
    requires |b| == 4
    ensures FromBigEndian(BigEndian(n)) == n
    ensures BigEndian(FromBigEndian(b)) == b
  {
    NumberOfBytes(n);
    BytesOfNumber(b);
  }

  lemma BigEndianInjective(m: u32, n: u32)
    requires BigEndian(m) == BigEndian(n)
    ensures m == n
  {
    BigEndianRoundTrip(m, BigEndian(m));
    BigEndianRoundTrip(n, BigEndian(n));
  }

  /** Where the prefixes have the same length, a concatenation can be taken apart. */
  lemma Unconcat<T>(a: seq<T>, x: seq<T>, b: seq<T>, y: seq<T>)
    requires |a| == |b|
    requires a + x == b + y
    ensures a == b && x == y
  {
    assert a == (a + x)[..|a|] == (b + y)[..|b|] == b;
    assert x == (a + x)[|a|..] == (b + y)[|b|..] == y;
  }

  /** A byte literal. */
  function Ascii(text: string): (b: bytes)
    requires forall i | 0 <= i < |text| :: text[i] as int < 128
    ensures |b| == |text| && forall i | 0 <= i < |text| :: b[i] as int == text[i] as int
  {
    seq(|text|, i requires 0 <= i < |text| => text[i] as int as byte)
  }
}
