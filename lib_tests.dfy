/**
 * The crate's unit tests, as client code of Uint256: each builds a value,
 * optionally shifts it, and reads its bytes back through GetByte. The
 * postconditions are the expectations the tests assert.
 */
module IntegerTests {
  import opened Limbs
  import opened Integer

  /** Reads bytes from..31 of u one at a time through GetByte, as the test loops do. */
  method ReadBytes(u: Uint256, from: nat) returns (read: seq<bv8>)
    requires u.Valid()
    requires from <= Width
    ensures read == u.Bytes()[from..]
  {
    read := [];
    for index := from to Width
      invariant read == u.Bytes()[from..index]
    {
      read := read + [u.GetByte(index)];
    }
  }

  /** Test `zero`: every byte of zero() reads as 0. */
  method ZeroTest() returns (read: seq<bv8>)
    ensures |read| == Width
    ensures forall i :: 0 <= i < |read| ==> read[i] == 0
  {
    var zero := new Uint256.Zero();
    read := ReadBytes(zero, 0);
  }

  /** Test `one`: byte 0 of one() reads as 1, bytes 1..31 as 0. */
  method OneTest() returns (low: bv8, high: seq<bv8>)
    ensures low == 1
    ensures |high| == Width - 1
    ensures forall i :: 0 <= i < |high| ==> high[i] == 0
  {
    var one := new Uint256.One();
    low := one.GetByte(0);
    high := ReadBytes(one, 1);
  }

  /**
   * Tests `shift_left_by_one` and `shift_left_by_two`, for any places < 8: after
   * one().shift_left(places), byte 0 reads as 2^places (0b10 for 1, 0b100 for 2)
   * and bytes 1..31 still read as 0.
   */
  method ShiftLeftTest(places: nat) returns (low: bv8, high: seq<bv8>)
    requires places < 8
    ensures low as int == Pow2(places)
    ensures |high| == Width - 1
    ensures forall i :: 0 <= i < |high| ==> high[i] == 0
  {
    var one := new Uint256.One();
    one.ShiftLeft(places);
    Pow2Small(places);
    low := one.GetByte(0);
    high := ReadBytes(one, 1);
  }

  /** Test `shift_left_by_one`: byte 0 becomes 0b00000010. */
  method ShiftLeftByOneTest() returns (low: bv8, high: seq<bv8>)
    ensures low == 0x02
    ensures |high| == Width - 1
    ensures forall i :: 0 <= i < |high| ==> high[i] == 0
  {
    low, high := ShiftLeftTest(1);
  }

  /** Test `shift_left_by_two`: byte 0 becomes 0b00000100. */
  method ShiftLeftByTwoTest() returns (low: bv8, high: seq<bv8>)
    ensures low == 0x04
    ensures |high| == Width - 1
    ensures forall i :: 0 <= i < |high| ==> high[i] == 0
  {
    low, high := ShiftLeftTest(2);
  }
}
