/**
 * The byte-level meaning of a Uint256 buffer: exactly 32 bytes ("limbs"),
 * stored little-endian, so that byte i carries the weight 256^i.
 * The functions here are the specification the Uint256 class is proved against.
 */
module Limbs {

  /** Number of bytes in every Uint256 buffer. */
  const Width: nat := 32

  function Pow2(n: nat): (r: nat)
    ensures r > 0
  {
    if n == 0 then 1 else 2 * Pow2(n - 1)
  }

  /** The unsigned integer a little-endian byte sequence denotes: sum of s[i] * 256^i. */
  function Value(s: seq<bv8>): (v: nat)
  {
    if s == [] then 0 else s[0] as nat + 256 * Value(s[1..])
  }

  /** The buffer built by zero(): every byte is 0. */
  function ZeroBytes(): (r: seq<bv8>)
    ensures |r| == Width
    ensures forall i :: 0 <= i < |r| ==> r[i] == 0
  {
    seq(Width, _ => 0)
  }

  /** The buffer built by one(): a zeroed buffer whose least-significant byte is set to 1. */
  function OneBytes(): (r: seq<bv8>)
    ensures |r| == Width
    ensures r[0] == 1
    ensures forall i :: 1 <= i < |r| ==> r[i] == 0
  {
    ZeroBytes()[0 := 1]
  }

  /**
   * The buffer after shift_left(places): only byte 0 is shifted, as a u8, so the
   * bits that leave it are dropped; nothing is carried into byte 1.
   */
  function ShiftFirstByte(s: seq<bv8>, places: nat): (r: seq<bv8>)
    requires |s| == Width && places < 8
    ensures |r| == Width
    ensures r[0] as int == (s[0] as int * Pow2(places)) % 256
    ensures forall i :: 1 <= i < Width ==> r[i] == s[i]
  {
    ShiftByteValue(s[0], places);
    s[0 := s[0] << places]
  }

  // ---------------------------------------------------------------------------
  // Shifting one byte
  // ---------------------------------------------------------------------------

  // The value of a u8 shift, one shift amount at a time: for a fixed amount the
  // solver settles the bit-level fact directly, which it cannot do cheaply for a
  // symbolic amount.

  lemma ShiftBy0(b: bv8)
    ensures (b << 0) as int == (b as int * 1) % 256
  {
  }

  lemma ShiftBy1(b: bv8)
    ensures (b << 1) as int == (b as int * 2) % 256
  {
  }

  lemma ShiftBy2(b: bv8)
    ensures (b << 2) as int == (b as int * 4) % 256
  {
  }

  lemma ShiftBy3(b: bv8)
    ensures (b << 3) as int == (b as int * 8) % 256
  {
  }

  lemma ShiftBy4(b: bv8)
    ensures (b << 4) as int == (b as int * 16) % 256
  {
  }

  lemma ShiftBy5(b: bv8)
    ensures (b << 5) as int == (b as int * 32) % 256
  {
  }

  lemma ShiftBy6(b: bv8)
    ensures (b << 6) as int == (b as int * 64) % 256
  {
  }

  lemma ShiftBy7(b: bv8)
    ensures (b << 7) as int == (b as int * 128) % 256
  {
  }

  lemma ShiftByteValueLow(b: bv8, places: nat)
    requires places < 4
    ensures (b << places) as int == (b as int * Pow2(places)) % 256
  {
    if places == 0 {
      ShiftBy0(b);
      assert b << places == b << 0;
    } else if places == 1 {
      ShiftBy1(b);
      assert b << places == b << 1;
    } else if places == 2 {
      ShiftBy2(b);
      assert b << places == b << 2;
      assert Pow2(2) == 4;
    } else if places == 3 {
      ShiftBy3(b);
      assert b << places == b << 3;
      assert Pow2(3) == 8;
    }
  }

  lemma ShiftByteValueHigh(b: bv8, places: nat)
    requires 4 <= places < 8
    ensures (b << places) as int == (b as int * Pow2(places)) % 256
  {
    assert Pow2(4) == 16;
    if places == 4 {
      ShiftBy4(b);
      assert b << places == b << 4;
    } else if places == 5 {
      ShiftBy5(b);
      assert b << places == b << 5;
      assert Pow2(5) == 32;
    } else if places == 6 {
      ShiftBy6(b);
      assert b << places == b << 6;
      assert Pow2(6) == 64;
    } else {
      ShiftBy7(b);
      assert b << places == b << 7;
      assert Pow2(7) == 128;
    }
  }

  /** A u8 left shift by fewer than 8 places multiplies by 2^places and keeps the low 8 bits. */
  lemma ShiftByteValue(b: bv8, places: nat)
    requires places < 8
    ensures (b << places) as int == (b as int * Pow2(places)) % 256
  {
    if places < 4 {
      ShiftByteValueLow(b, places);
    } else {
      ShiftByteValueHigh(b, places);
    }
  }

  // Kept apart so that the bit-vector-to-int conversion is solved without the
  // sequence and multiplication facts of its caller, which exhaust the solver.
  lemma ByteInjective(a: bv8, b: bv8)
    requires a as int == b as int
    ensures a == b
  {
  }

  lemma {:induction false} Pow2Add(p: nat, q: nat)
    ensures Pow2(p + q) == Pow2(p) * Pow2(q)
  {
    if q > 0 {
      Pow2Add(p, q - 1);
      assert Pow2(p + q) == 2 * Pow2(p + q - 1);
      assert Pow2(q) == 2 * Pow2(q - 1);
    }
  }

  lemma MulMod(y: int, m: int)
    ensures ((y % 256) * m) % 256 == (y * m) % 256
  {
    var k, r := y / 256, y % 256;
    assert y * m == 256 * (k * m) + r * m;
  }

  /** Truncating to 8 bits after each of two multiplications is truncating once at the end. */
  lemma ShiftTwiceArith(x: int, p: nat, q: nat, once: int, twice: int, direct: int)
    requires once == (x * Pow2(p)) % 256 && twice == (once * Pow2(q)) % 256
    requires direct == (x * Pow2(p + q)) % 256
    ensures twice == direct
  {
    var y := x * Pow2(p);
    MulMod(y, Pow2(q));
    Pow2Add(p, q);
    assert x * (Pow2(p) * Pow2(q)) == y * Pow2(q);
  }

  // ---------------------------------------------------------------------------
  // The little-endian interpretation
  // ---------------------------------------------------------------------------

  lemma {:induction false} AllZeroValue(s: seq<bv8>)
    requires forall i :: 0 <= i < |s| ==> s[i] == 0
    ensures Value(s) == 0
  {
    if s != [] {
      AllZeroValue(s[1..]);
    }
  }

  /** Only the all-zero buffer denotes 0. */
  lemma {:induction false} ValueZeroAll(s: seq<bv8>)
    requires Value(s) == 0
    ensures forall i :: 0 <= i < |s| ==> s[i] == 0
  {
    if s != [] {
      ValueZeroAll(s[1..]);
      assert s[0] as int == 0;
      assert forall i :: 1 <= i < |s| ==> s[i] == s[1..][i - 1];
    }
  }

  lemma Pow2Byte(n: nat)
    ensures Pow2(n + 8) == 256 * Pow2(n)
  {
    assert Pow2(n + 8) == 2 * Pow2(n + 7);
    assert Pow2(n + 7) == 2 * Pow2(n + 6);
    assert Pow2(n + 6) == 2 * Pow2(n + 5);
    assert Pow2(n + 5) == 2 * Pow2(n + 4);
    assert Pow2(n + 4) == 2 * Pow2(n + 3);
    assert Pow2(n + 3) == 2 * Pow2(n + 2);
    assert Pow2(n + 2) == 2 * Pow2(n + 1);
  }

  lemma {:induction false} Pow2Small(n: nat)
    requires n < 8
    ensures Pow2(n) <= 128
    decreases 7 - n
  {
    if n < 7 {
      Pow2Small(n + 1);
      assert Pow2(n + 1) == 2 * Pow2(n);
    } else {
      assert Pow2(7) == 128;
    }
  }

  /** A buffer of n bytes denotes a value below 2^(8n); a Uint256 buffer holds a 256-bit number. */
  lemma {:induction false} ValueBound(s: seq<bv8>)
    ensures Value(s) < Pow2(8 * |s|)
  {
    if s != [] {
      ValueBound(s[1..]);
      Pow2Byte(8 * (|s| - 1));
      assert 8 * |s| == 8 * (|s| - 1) + 8;
    }
  }

  // A nonlinear step kept as a lemma: asserted inline in DivUnique it is proved
  // only through the contradictory facts of that branch, and GrowthFromLowByte
  // uses it too.
  lemma MulAtLeast(d: int, k: int)
    requires d > 0 && k >= 1
    ensures d * k >= d
  {
  }

  // Kept apart so that this step is solved over integers alone; asserted inline,
  // next to the byte sequences of its caller, it exhausts the solver.
  lemma OnlyLowByte(after: int, before: int, b: int, p: int)
    requires before == b && 0 <= b && 0 <= p && b * p < 256
    requires after == before - b + (b * p) % 256
    ensures after == before * p
  {
  }

  /** Euclidean division is unique: a quotient and remainder in range are x / d and x % d. */
  lemma DivUnique(x: int, d: int, q: int, r: int)
    requires d > 0 && 0 <= r < d && x == d * q + r
    ensures x / d == q && x % d == r
  {
    var q0, r0 := x / d, x % d;
    assert x == d * q0 + r0;
    assert d * (q - q0) == r0 - r;
    if q - q0 >= 1 {
      MulAtLeast(d, q - q0);
    } else if q0 - q >= 1 {
      MulAtLeast(d, q0 - q);
    }
  }

  /** Dropping the least-significant byte: (a + 256 * v) / (256 * w) == v / w. */
  lemma DropLowByte(a: int, v: int, w: int)
    requires 0 <= a < 256 && w > 0
    ensures (a + 256 * v) / (256 * w) == v / w
  {
    var q, r := v / w, v % w;
    assert v == w * q + r;
    assert a + 256 * v == (256 * w) * q + (256 * r + a);
    DivUnique(a + 256 * v, 256 * w, q, 256 * r + a);
  }

  /** Byte i of a buffer is the base-256 digit of weight 256^i of the value it denotes. */
  lemma {:induction false} ValueDigit(s: seq<bv8>, i: nat)
    requires i < |s|
    ensures (Value(s) / Pow2(8 * i)) % 256 == s[i] as int
  {
    if i == 0 {
      DivUnique(Value(s), 256, Value(s[1..]), s[0] as int);
    } else {
      ValueDigit(s[1..], i - 1);
      Pow2Byte(8 * (i - 1));
      assert 8 * i == 8 * (i - 1) + 8;
      DropLowByte(s[0] as int, Value(s[1..]), Pow2(8 * (i - 1)));
    }
  }

  // ---------------------------------------------------------------------------
  // What zero(), one() and shift_left denote
  // ---------------------------------------------------------------------------

  /** zero() denotes 0. */
  lemma ZeroValue()
    ensures Value(ZeroBytes()) == 0
  {
    AllZeroValue(ZeroBytes());
  }

  /** one() denotes 1: the byte it sets, index 0, is the least significant one. */
  lemma OneValue()
    ensures Value(OneBytes()) == 1
  {
    var s := OneBytes();
    AllZeroValue(s[1..]);
  }

  /** shift_left changes the value only through byte 0, whose weight is 1. */
  lemma ShiftFirstByteValue(s: seq<bv8>, places: nat)
    requires |s| == Width && places < 8
    ensures Value(ShiftFirstByte(s, places)) == Value(s) - s[0] as int + (s[0] as int * Pow2(places)) % 256
  {
    var r := ShiftFirstByte(s, places);
    assert r[1..] == s[1..];
  }

  /**
   * When the value fits in byte 0 and stays there after the shift, shift_left
   * multiplies it by 2^places; this is the case the unit tests exercise.
   */
  lemma ShiftFirstByteMultiplies(s: seq<bv8>, places: nat)
    requires |s| == Width && places < 8
    requires forall i :: 1 <= i < Width ==> s[i] == 0
    requires s[0] as int * Pow2(places) < 256
    ensures Value(ShiftFirstByte(s, places)) == Value(s) * Pow2(places)
  {
    var b, p := s[0] as int, Pow2(places);
    assert Value(s) == b by {
      AllZeroValue(s[1..]);
    }
    ShiftFirstByteValue(s, places);
    OnlyLowByte(Value(ShiftFirstByte(s, places)), Value(s), b, p);
  }

  // Integer core of the converse below, kept apart so that it is solved without
  // the byte sequences: a number b + 256 * rest (b a byte) that grows to p times
  // itself (p >= 2) when b alone is replaced by (b * p) % 256 has rest == 0, and
  // b * p does not overflow the byte.
  lemma GrowthFromLowByte(b: int, rest: int, p: int)
    requires 0 <= b < 256 && 0 <= rest && p >= 2
    requires (b + 256 * rest) * p == 256 * rest + (b * p) % 256
    ensures rest == 0 && b * p < 256
  {
    var v, m := b + 256 * rest, (b * p) % 256;
    assert 0 <= m < 256;
    if v > 0 {
      MulAtLeast(v, p - 1);
      assert v * p == v * (p - 1) + v;
    }
    assert rest == 0;
    assert b * p == m;
  }

  /**
   * The converse, for places of 1 to 7: if shift_left multiplied the number by
   * 2^places, the number fitted in byte 0 and stayed there. For places == 0 the
   * number is always multiplied by 2^0, whatever it is.
   */
  lemma ShiftFirstByteMultipliesOnlyIf(s: seq<bv8>, places: nat)
    requires |s| == Width && 1 <= places < 8
    requires Value(ShiftFirstByte(s, places)) == Value(s) * Pow2(places)
    ensures forall i :: 1 <= i < Width ==> s[i] == 0
    ensures s[0] as int * Pow2(places) < 256
  {
    var b, rest, p := s[0] as int, Value(s[1..]), Pow2(places);
    assert Value(s) == b + 256 * rest;
    assert (b + 256 * rest) * p == 256 * rest + (b * p) % 256 by {
      ShiftFirstByteValue(s, places);
    }
    assert p >= 2 by {
      assert Pow2(places) == 2 * Pow2(places - 1);
    }
    GrowthFromLowByte(b, rest, p);
    ValueZeroAll(s[1..]);
    assert forall i :: 1 <= i < Width ==> s[i] == s[1..][i - 1];
  }

  /** one() shifted left by places (< 8) denotes 2^places. */
  lemma OneShiftedValue(places: nat)
    requires places < 8
    ensures Value(ShiftFirstByte(OneBytes(), places)) == Pow2(places)
  {
    var s := OneBytes();
    OneValue();
    Pow2Small(places);
    assert s[0] as int == 1;
    assert s[0] as int * Pow2(places) == Pow2(places);
    ShiftFirstByteMultiplies(s, places);
  }

  /** Two shifts compose: shifting by p then q is shifting by p + q, while p + q < 8. */
  lemma ShiftFirstByteTwice(s: seq<bv8>, p: nat, q: nat)
    requires |s| == Width && p + q < 8
    ensures ShiftFirstByte(ShiftFirstByte(s, p), q) == ShiftFirstByte(s, p + q)
  {
    var once, direct := ShiftFirstByte(s, p), ShiftFirstByte(s, p + q);
    var twice := ShiftFirstByte(once, q);
    ShiftTwiceArith(s[0] as int, p, q, once[0] as int, twice[0] as int, direct[0] as int);
    ByteInjective(twice[0], direct[0]);
    assert forall i :: 0 <= i < Width ==> twice[i] == direct[i];
  }

  /** Shifting by zero places leaves the buffer as it was. */
  lemma ShiftFirstByteByZero(s: seq<bv8>)
    requires |s| == Width
    ensures ShiftFirstByte(s, 0) == s
  {
  }
}
