# Uint256: a verified model of the 32-byte unsigned integer buffer

The Rust crate `integer` defines `Uint256`, a 256-bit unsigned integer held as a
heap-allocated buffer of exactly 32 bytes. Byte 0 is the least-significant byte,
so the buffer denotes the number `sum of bytes[i] * 256^i`. At this stage the
type has four operations:

- `zero()` builds an all-zero buffer;
- `one()` builds a buffer whose byte 0 is 1 and whose other bytes are 0;
- `get_byte(index)` reads one byte and faults when `index >= 32`;
- `shift_left(places)` shifts byte 0, and only byte 0, left by `places` as a
  `u8`, in place. Bits pushed out of byte 0 are lost. They are not carried into
  byte 1.

The model has three modules:

- `Limbs` (`limbs.dfy`) is the specification on byte sequences. It defines
  `ZeroBytes`, `OneBytes` and `ShiftFirstByte`, and `Value`, the little-endian
  reading of a buffer as a number. Its lemmas state what each operation means
  for that number.
- `Integer` (`lib.dfy`) holds the class `Uint256`. The class owns an
  `array<bv8>` of length 32, held in a constant field, so it is never replaced
  and no two objects share it. `Zero` and `One` are constructors, `GetByte` is a
  reading function, and `ShiftLeft` is a method that updates the array in place.
  Each is proved against the `Limbs` functions.
- `IntegerTests` (`lib_tests.dfy`) holds the crate's unit tests as client
  methods. Each one builds a value, shifts it if the test does, and reads the
  bytes back through `GetByte` in a loop. The postconditions are the values the
  tests assert.

Bytes are `bv8`, so `bv8`'s `<<` is Rust's `u8 <<=` for shift amounts below 8.
It keeps the low 8 bits. `ShiftByteValue` proves that this equals
`(b * 2^places) mod 256`.

`shift_left` multiplies the number by `2^places` when the number fits in
byte 0 and stays there (`ShiftFirstByteMultiplies`). For places from 1 to 7 the
converse holds too: if the number was multiplied by `2^places`, it fitted in
byte 0 and stayed there (`ShiftFirstByteMultipliesOnlyIf`). Places 0 is the
exception, since a shift by 0 multiplies every number by `2^0`. In general the
shift changes only byte 0 (`ShiftFirstByteValue`).

## Model

| member | source | states |
|---|---|---|
| Integer.Uint256.Valid | src/lib.rs:9-11 | the object invariant of the struct: its buffer is always exactly 32 bytes long; every constructor establishes it and ShiftLeft keeps it |
| Limbs.ZeroBytes | src/lib.rs:14-18 | the zero buffer has exactly 32 bytes and every one is 0 |
| Limbs.OneBytes | src/lib.rs:20-26 | the one buffer has exactly 32 bytes, byte 0 is 1 and bytes 1..31 are 0 |
| Limbs.ShiftFirstByte | src/lib.rs:32-34 | after shift_left(places) with places < 8, the buffer still has 32 bytes; byte 0 is (old byte 0 * 2^places) mod 256, so the bits shifted out are dropped; bytes 1..31 are unchanged, so there is no carry |
| Limbs.ShiftByteValue | src/lib.rs:33 | a u8 left shift by places < 8 equals multiplication by 2^places modulo 256 |
| Limbs.ShiftFirstByteTwice | src/lib.rs:32-34 | shifting by p and then by q gives the same buffer as shifting by p + q, while p + q < 8 |
| Limbs.ShiftFirstByteByZero | src/lib.rs:32-34 | shifting by 0 places leaves the buffer unchanged |
| Limbs.ValueBound | src/lib.rs:9-11 | a buffer of n bytes denotes a number below 2^(8n), so a 32-byte buffer holds a 256-bit number |
| Limbs.ValueDigit | src/lib.rs:28-30 | byte i of a buffer is the base-256 digit of weight 256^i of the number it denotes (little-endian layout) |
| Limbs.ZeroValue | src/lib.rs:14-18 | the zero buffer denotes 0 |
| Limbs.ValueZeroAll | src/lib.rs:9-11 | only a buffer whose bytes are all 0 denotes 0, so the zero buffer is the one representation of 0 |
| Limbs.OneValue | src/lib.rs:20-26 | the one buffer denotes 1, because index 0 is the least-significant byte |
| Limbs.ShiftFirstByteValue | src/lib.rs:32-34 | shift_left changes the number only through byte 0: new value = old value - old byte 0 + (old byte 0 * 2^places) mod 256 |
| Limbs.ShiftFirstByteMultiplies | src/lib.rs:32-34 | if bytes 1..31 are 0 and byte 0 * 2^places < 256, shift_left multiplies the number by 2^places |
| Limbs.ShiftFirstByteMultipliesOnlyIf | src/lib.rs:32-34 | for places from 1 to 7, if shift_left multiplied the number by 2^places, then bytes 1..31 are 0 and byte 0 * 2^places < 256 (the converse of ShiftFirstByteMultiplies) |
| Limbs.OneShiftedValue | src/lib.rs:58-76 | one() shifted left by places < 8 denotes 2^places |
| Integer.Uint256.Zero | src/lib.rs:14-18 | builds a fresh 32-byte buffer equal to the zero buffer, which denotes 0 |
| Integer.Uint256.One | src/lib.rs:20-26 | builds a zeroed fresh buffer, sets byte 0 to 1, and the result equals the one buffer, which denotes 1 |
| Integer.Uint256.GetByte | src/lib.rs:28-30 | for index < 32, reads without changing anything and returns the stored byte at index, which is the digit of weight 256^index of the number |
| Integer.Uint256.ShiftLeft | src/lib.rs:32-34 | for places < 8, modifies only the buffer's contents, in place; the buffer keeps 32 bytes and becomes ShiftFirstByte of its old contents (byte 0 shifted and truncated, bytes 1..31 unchanged) |
| IntegerTests.ReadBytes | src/lib.rs:44-46 | reading bytes from..31 one by one through GetByte yields exactly the stored bytes from..31 |
| IntegerTests.ZeroTest | src/lib.rs:41-47 | all 32 bytes of zero() read as 0 |
| IntegerTests.OneTest | src/lib.rs:49-56 | byte 0 of one() reads as 1 and bytes 1..31 read as 0 |
| IntegerTests.ShiftLeftTest | src/lib.rs:58-76 | after one().shift_left(places) with places < 8, byte 0 reads as 2^places and bytes 1..31 read as 0 |
| IntegerTests.ShiftLeftByOneTest | src/lib.rs:58-66 | after one().shift_left(1), byte 0 reads as 0b00000010 and bytes 1..31 read as 0 |
| IntegerTests.ShiftLeftByTwoTest | src/lib.rs:68-76 | after one().shift_left(2), byte 0 reads as 0b00000100 and bytes 1..31 read as 0 |

## Left out

- Integer.Uint256.ShiftLeft: requires places < 8. In Rust, `u8 <<= places` with
  places >= 8 panics in a debug build and masks the amount to its low 3 bits in a
  release build. Neither behaviour is modelled.
- Integer.Uint256.GetByte: requires index < 32. In Rust an index of 32 or more
  panics through the slice bounds check. The model states this as a
  precondition. It does not model the panic as a returned error.
- Indices and shift amounts are `usize` in Rust and `nat` here. The
  preconditions keep them far below any `usize` limit.
- The `Box<[u8]>` heap allocation and ownership are modelled as an `array<bv8>`
  in a constant field, created fresh by each constructor. The Rust field is
  private; Dafny here has no private fields, so code outside the class could
  still write into the array's elements. The model's own clients change it only
  through ShiftLeft.
- The commented-out `_256` and `__256` structs (src/lib.rs:1-7) are dead code.
- Hex text parsing and rendering, addition, multiplication, narrowing
  conversions, construction from byte slices or native integers, `shift_right`,
  and carrying shifts across bytes do not exist in this code, so they are not
  modelled.
- The test harness (`#[cfg(test)]`, `assert_eq!`) is modelled only through the
  `IntegerTests` methods' postconditions.
