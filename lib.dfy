/**
 * The Uint256 value type: an object that owns a 32-byte buffer, index 0 being
 * the least-significant byte. The buffer is fixed when the object is built and
 * is never replaced or resized; among the type's operations, shift_left is the
 * only one that changes its contents, and it does so in place.
 */
module Integer {
  import opened Limbs

  class Uint256 {
    /** The buffer; a constant field, so no object can be given another's buffer. */
    const bytes: array<bv8>

    /** The object invariant: the buffer is always exactly 32 bytes long. */
    ghost predicate Valid()
      reads this
    {
      bytes.Length == Width
    }

    /** The current contents of the buffer, least-significant byte first. */
    ghost function Bytes(): (s: seq<bv8>)
      reads this, bytes
      ensures |s| == bytes.Length
    {
      bytes[..]
    }

    /** zero(): a fresh buffer of 32 bytes, all 0, denoting the number 0. */
    constructor Zero()
      ensures Valid() && fresh(bytes)
      ensures Bytes() == ZeroBytes()
      ensures Value(Bytes()) == 0
    {
      bytes := new bv8[Width](_ => 0);
      ZeroValue();
    }

    /** one(): a zeroed local buffer whose byte 0 is then set to 1, denoting the number 1. */
    constructor One()
      ensures Valid() && fresh(bytes)
      ensures Bytes() == OneBytes()
      ensures Value(Bytes()) == 1
    {
      var b := new bv8[Width](_ => 0);
      b[0] := 1;
      bytes := b;
      OneValue();
    }

    /**
     * get_byte(index): the stored byte at index, which is the base-256 digit of
     * weight 256^index of the number. Indexing past the buffer is a fault in the
     * source, so the index must be below 32.
     */
    function GetByte(index: nat): (b: bv8)
      reads this, bytes
      requires Valid()
      requires index < Width
      ensures b == Bytes()[index]
      ensures b as int == (Value(Bytes()) / Pow2(8 * index)) % 256
    {
      ValueDigit(bytes[..], index);
      bytes[index]
    }

    /**
     * shift_left(places): shifts byte 0 left by places as a u8, in place. Bits
     * that leave byte 0 are dropped, bytes 1..31 are untouched, and the buffer
     * keeps its 32 bytes.
     */
    method ShiftLeft(places: nat)
      requires Valid()
      requires places < 8
      modifies bytes
      ensures Valid()
      ensures Bytes() == ShiftFirstByte(old(Bytes()), places)
    {
      ghost var before := bytes[..];
      bytes[0] := bytes[0] << places;
      assert bytes[..] == before[0 := before[0] << places];
    }
  }
}
