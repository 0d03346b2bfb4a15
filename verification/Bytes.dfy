/** Bytes, text and the big-endian integers every encoder of the program is built from. */
module Bytes {

  type byte = x: int | 0 <= x < 256

  /** `std::string` and `std::vector<uint8_t>` both hold plain bytes. */
  type Text = seq<byte>

  const TWO32: nat := 0x1_0000_0000
  const TWO64: nat := 0x1_0000_0000_0000_0000

  type U32 = v: nat | v < TWO32

  /** The bytes of an ASCII literal. */
  function Ascii(s: string): (t: Text)
    ensures |t| == |s|
  {
    seq(|s|, i requires 0 <= i < |s| => s[i] as int % 256)
  }

  /** Four bytes, most significant first. A value that does not fit is cut to its low 32 bits,
      as the source's cast to `uint32_t` does. */
  function U32Bytes(v: nat): (b: seq<byte>)
    ensures |b| == 4
  {
    [v / 0x100_0000 % 256, v / 0x1_0000 % 256, v / 0x100 % 256, v % 256]
  }

  function U32Value(b: seq<byte>): (v: nat)
    requires |b| == 4
    ensures v < TWO32
  {
    b[0] as nat * 0x100_0000 + b[1] as nat * 0x1_0000 + b[2] as nat * 0x100 + b[3] as nat
  }

  /** Eight bytes, most significant first, cut to the low 64 bits. */
  function U64Bytes(v: nat): (b: seq<byte>)
    ensures |b| == 8
  {
    U32Bytes(v / TWO32) + U32Bytes(v % TWO32)
  }

  function U64Value(b: seq<byte>): (v: nat)
    requires |b| == 8
    ensures v < TWO64
  {
    U32Value(b[..4]) * TWO32 + U32Value(b[4..])
  }

  lemma U32RoundTrip(v: nat)
    requires v < TWO32
    ensures U32Value(U32Bytes(v)) == v
  {
    var b := U32Bytes(v);
    assert v == v / 0x100 * 0x100 + b[3];
    assert v / 0x100 == v / 0x1_0000 * 0x100 + b[2];
    assert v / 0x1_0000 == v / 0x100_0000 * 0x100 + b[1];
    assert v / 0x100_0000 == b[0];
  }

  /** A number times 256 and a byte come apart again. */
  lemma ByteSplit(q: nat, r: byte)
    ensures (q * 256 + r) / 256 == q && (q * 256 + r) % 256 == r
  {
  }

  lemma U32Canonical(b: seq<byte>)
    requires |b| == 4
    ensures U32Bytes(U32Value(b)) == b
  {
    var q1, q2 := b[0] as nat * 256 + b[1], (b[0] as nat * 256 + b[1]) * 256 + b[2];
    var v := U32Value(b);
    assert v == q2 * 256 + b[3];
    ByteSplit(q2, b[3]);
    ByteSplit(q1, b[2]);
    ByteSplit(b[0], b[1]);
    assert v / 0x1_0000 == v / 256 / 256 && v / 0x100_0000 == v / 256 / 256 / 256;
  }

  lemma U64RoundTrip(v: nat)
    requires v < TWO64
    ensures U64Value(U64Bytes(v)) == v
  {
    U32RoundTrip(v / TWO32);
    U32RoundTrip(v % TWO32);
    assert U64Bytes(v)[..4] == U32Bytes(v / TWO32);
    assert U64Bytes(v)[4..] == U32Bytes(v % TWO32);
  }

  lemma U64Canonical(b: seq<byte>)
    requires |b| == 8
    ensures U64Bytes(U64Value(b)) == b
  {
    var hi, lo := U32Value(b[..4]), U32Value(b[4..]);
    assert (hi * TWO32 + lo) / TWO32 == hi && (hi * TWO32 + lo) % TWO32 == lo;
    U32Canonical(b[..4]);
    U32Canonical(b[4..]);
    assert b == b[..4] + b[4..];
  }

  lemma Assoc(a: seq<byte>, b: seq<byte>, c: seq<byte>)
    ensures (a + b) + c == a + (b + c)
  {
  }
}
