/** The Go value types the model needs, and the conversions between machine integers. */
module GoTypes {

  const TWO_32: int := 0x1_0000_0000
  const TWO_63: int := 0x8000_0000_0000_0000
  const TWO_64: int := 0x1_0000_0000_0000_0000
  // The largest Go int, hence the longest slice.
  const MAX_INT: int := 0x7FFF_FFFF_FFFF_FFFF

  type byte = x: int | 0 <= x < 256
  type uint64 = x: int | 0 <= x < 0x1_0000_0000_0000_0000
  type int64 = x: int | -0x8000_0000_0000_0000 <= x < 0x8000_0000_0000_0000
  type int32 = x: int | -0x8000_0000 <= x < 0x8000_0000

  // A Go string is an immutable sequence of bytes, with no encoding imposed.
  type Str = seq<byte>

  datatype Option<+T> = None | Some(value: T)

  datatype Result<+T, +E> = Ok(value: T) | Err(error: E)

  // uint64(x) for a signed x: two's complement, sign-extended.
  function ToUint64(x: int64): (u: uint64)
  {
    if x < 0 then x + TWO_64 else x
  }

  // int64(u), and int(u) on a 64-bit platform.
  function ToInt64(u: uint64): (x: int64)
  {
    if u < TWO_63 then u else u - TWO_64
  }

  // int32(u): the low 32 bits, read as a signed number.
  function ToInt32(u: nat): (x: int32)
  {
    var low := u % TWO_32;
    if low < TWO_32 / 2 then low else low - TWO_32
  }

  // Signed 64-bit addition with wrap-around, for operands that are not negative.
  function AddInt64(a: nat, b: nat): (s: int64)
    requires a <= MAX_INT && b <= MAX_INT
  {
    if a + b <= MAX_INT then a + b else a + b - TWO_64
  }

  lemma Int64RoundTrip(x: int64)
    ensures ToInt64(ToUint64(x)) == x
  {
  }

  // Sign extension to 64 bits loses nothing when only the low 32 bits are read back.
  lemma Int32RoundTrip(x: int32)
    ensures ToInt32(ToUint64(x)) == x
  {
    if x < 0 {
      assert ToUint64(x) == (TWO_32 - 1) * TWO_32 + (x + TWO_32);
    }
  }
}
