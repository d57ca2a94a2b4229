/** The two field encodings of a `.bi5` record: big-endian int32 (`struct` code `>i`)
    and big-endian IEEE-754 single precision (`>f`). */
module BigEndian {
  import opened Common

  const TWO_32: int := 0x1_0000_0000
  const TWO_31: int := 0x8000_0000
  const TWO_23: int := 0x80_0000

  function UInt32At(b: seq<byte>, off: int): (u: int)
    requires 0 <= off && off + 4 <= |b|
    ensures 0 <= u < TWO_32
  {
    ((b[off] as int * 256 + b[off + 1] as int) * 256 + b[off + 2] as int) * 256 + b[off + 3] as int
  }

  /** `>i`: two's-complement signed 32-bit integer. */
  function Int32At(b: seq<byte>, off: int): (x: int)
    requires 0 <= off && off + 4 <= |b|
    ensures -TWO_31 <= x < TWO_31
  {
    var u := UInt32At(b, off);
    if u >= TWO_31 then u - TWO_32 else u
  }

  /** `struct.pack(">i", x)`: the two's-complement value in base 256, most significant first. */
  function EncodeInt32(x: int): (b: seq<byte>)
    requires -TWO_31 <= x < TWO_31
    ensures |b| == 4
  {
    var u := if x < 0 then x + TWO_32 else x;
    var q1 := u / 256;
    var q2 := q1 / 256;
    var q3 := q2 / 256;
    [q3, q2 % 256, q1 % 256, u % 256]
  }

  lemma Int32RoundTrip(x: int)
    requires -TWO_31 <= x < TWO_31
    ensures Int32At(EncodeInt32(x), 0) == x
  {
    var u := if x < 0 then x + TWO_32 else x;
    var q1 := u / 256;
    var q2 := q1 / 256;
    var q3 := q2 / 256;
    assert u == q1 * 256 + u % 256;
    assert q1 == q2 * 256 + q1 % 256;
    assert q2 == q3 * 256 + q2 % 256;
    assert UInt32At(EncodeInt32(x), 0) == ((q3 * 256 + q2 % 256) * 256 + q1 % 256) * 256 + u % 256;
  }

  lemma Int32BytesRoundTrip(b: seq<byte>)
    requires |b| == 4
    ensures EncodeInt32(Int32At(b, 0)) == b
  {
    var u := UInt32At(b, 0);
    var q1 := (b[0] as int * 256 + b[1] as int) * 256 + b[2] as int;
    var q2 := b[0] as int * 256 + b[1] as int;
    assert u == q1 * 256 + b[3];
    assert u / 256 == q1 && u % 256 == b[3];
    assert q1 / 256 == q2 && q1 % 256 == b[2];
    assert q2 / 256 == b[0] && q2 % 256 == b[1];
  }

  // ---------------------------------------------------------------------------
  // float32 fields

  function Pow2(n: nat): (p: nat)
    ensures p >= 1
  {
    if n == 0 then 1 else 2 * Pow2(n - 1)
  }

  lemma {:induction false} Pow2Add(a: nat, b: nat)
    ensures Pow2(a + b) == Pow2(a) * Pow2(b)
  {
    if a > 0 {
      Pow2Add(a - 1, b);
    }
  }

  lemma {:induction false} Pow2Monotone(a: nat, b: nat)
    requires a <= b
    ensures Pow2(a) <= Pow2(b)
  {
    if a < b {
      Pow2Monotone(a, b - 1);
    }
  }

  /** The biased exponent field (8 bits) of a float32 stored at `off`. */
  function ExponentAt(b: seq<byte>, off: int): (e: int)
    requires 0 <= off && off + 4 <= |b|
    ensures 0 <= e < 256
  {
    (b[off] as int % 128) * 2 + b[off + 1] as int / 128
  }

  /** The 23-bit fraction field of a float32 stored at `off`. */
  function FractionAt(b: seq<byte>, off: int): (m: int)
    requires 0 <= off && off + 4 <= |b|
    ensures 0 <= m < TWO_23
  {
    (b[off + 1] as int % 128) * 65536 + b[off + 2] as int * 256 + b[off + 3] as int
  }

  /** `math.isfinite` of the float32 at `off`: the exponent field is not all ones. */
  predicate IsFinite32At(b: seq<byte>, off: int)
    requires 0 <= off && off + 4 <= |b|
  {
    ExponentAt(b, off) != 255
  }

  /** The exact absolute value of a finite float32: subnormal when the exponent field is 0,
      normal (with the implicit leading one) otherwise. */
  function Magnitude32At(b: seq<byte>, off: int): (r: real)
    requires 0 <= off && off + 4 <= |b|
    ensures r >= 0.0
  {
    var e := ExponentAt(b, off);
    var m := FractionAt(b, off);
    if e == 0 then m as real / Pow2(149) as real
    else if e >= 150 then ((TWO_23 + m) * Pow2(e - 150)) as real
    else (TWO_23 + m) as real / Pow2(150 - e) as real
  }

  /** The value `struct.unpack(">f")` yields, widened exactly to a real. */
  function Float32At(b: seq<byte>, off: int): real
    requires 0 <= off && off + 4 <= |b|
  {
    if !IsFinite32At(b, off) then 0.0
    else if b[off] >= 128 then -Magnitude32At(b, off)
    else Magnitude32At(b, off)
  }

  /** The double nearest to 1e-6, which is what the literal `1e-6` denotes:
      4722366482869645 / 2^72. */
  const TINY: real := 4722366482869645.0 / 4722366482869645213696.0

  /** `abs(x) < 1e-6` for the float32 at `off`. */
  predicate Tiny32At(b: seq<byte>, off: int)
    requires 0 <= off && off + 4 <= |b|
  {
    Magnitude32At(b, off) < TINY
  }

  /** A non-negative int32 below 2^23, read as a float32, is a finite subnormal far below
      1e-6: the reason misread integer prices look "absurdly small". */
  lemma SmallIntReadAsFloatIsTiny(b: seq<byte>, off: int)
    requires 0 <= off && off + 4 <= |b|
    requires 0 <= Int32At(b, off) < TWO_23
    ensures IsFinite32At(b, off) && Tiny32At(b, off)
  {
    SmallIntHasZeroExponent(b, off);
    SubnormalIsTiny(FractionAt(b, off));
  }

  /** A subnormal single, at most 2^23 / 2^149, is far below the threshold. */
  lemma SubnormalIsTiny(m: int)
    requires 0 <= m < TWO_23
    ensures m as real / Pow2(149) as real < TINY
  {
    Pow2Is72();
    SubnormalBelow(m, 72, 77);
  }

  lemma SubnormalBelow(m: int, a: nat, b: nat)
    requires 0 <= m < TWO_23 && a == 72 && b == 77 && Pow2(a) == 4722366482869645213696
    ensures m as real / Pow2(a + b) as real < TINY
  {
    Pow2Add(a, b);
    Pow2Monotone(23, b);
    ProductAsReal(Pow2(a), Pow2(b));
    SubnormalBound(m as real, Pow2(a + b) as real, Pow2(a) as real, Pow2(b) as real);
  }

  lemma SmallIntHasZeroExponent(b: seq<byte>, off: int)
    requires 0 <= off && off + 4 <= |b|
    requires 0 <= Int32At(b, off) < TWO_23
    ensures ExponentAt(b, off) == 0
  {
    var u := UInt32At(b, off);
    var hi := b[off] as int * 256 + b[off + 1] as int;
    assert u == (hi * 256 + b[off + 2] as int) * 256 + b[off + 3] as int;
    assert hi < 128;
  }

  lemma ProductAsReal(a: int, b: int)
    ensures (a * b) as real == a as real * b as real
  {
  }

  lemma Pow2Is72()
    ensures Pow2(72) == 4722366482869645213696
  {
    Pow2Is9();
    Pow2Add(9, 9);
    assert Pow2(18) == 262144;
    Pow2Add(18, 18);
    assert Pow2(36) == 68719476736;
    Pow2Add(36, 36);
  }

  lemma Pow2Is9()
    ensures Pow2(9) == 512
  {
    assert Pow2(1) == 2;
    assert Pow2(3) == 8;
    assert Pow2(5) == 32;
    assert Pow2(7) == 128;
  }

  lemma SubnormalBound(m: real, q: real, p72: real, p77: real)
    requires 0.0 <= m < p77 && p72 == 4722366482869645213696.0 && q == p72 * p77
    ensures m / q < TINY
  {
    assert q > 0.0;
    assert m / q < p77 / q;
    assert p77 / q == 1.0 / p72;
  }
}
