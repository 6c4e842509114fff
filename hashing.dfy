/** The seeded 32-bit hash the repository calls `MurmurHash`, and the byte
    views of the buffers it is applied to. The hash itself is not part of
    this model: every operation that uses it takes it as a parameter. */
module Hashing {

  newtype byte = x: int | 0 <= x < 0x100

  /** A C++ `int` on the targeted platforms. */
  newtype int32 = x: int | -0x8000_0000 <= x < 0x8000_0000

  /** A C++ `unsigned int`. */
  newtype uint32 = x: int | 0 <= x < 0x1_0000_0000

  /** `MurmurHash(buffer, length, seed)`: a deterministic function of the
      bytes and the seed. */
  type HashFn = (seq<byte>, int) -> uint32

  /** `std::numeric_limits<unsigned int>::max()`. */
  const UintMax: uint32 := 0xFFFF_FFFF

  /** The value an `int` holds after an `unsigned int` is assigned to it:
      the same 32 bits read in two's complement. */
  function ToInt32(h: uint32): (r: int32)
    ensures r as int == h as int || r as int == h as int - 0x1_0000_0000
    ensures r >= 0 <==> h < 0x8000_0000
  {
    if h < 0x8000_0000 then h as int as int32 else (h as int - 0x1_0000_0000) as int32
  }

  /** A `char` as the byte the hash reads. */
  function CharByte(c: char): byte {
    (c as int % 0x100) as byte
  }

  /** The bytes of `s.c_str()` the hash reads, one per character. */
  function StringBytes(s: string): (b: seq<byte>)
    ensures |b| == |s|
    ensures forall i :: 0 <= i < |s| ==> b[i] == CharByte(s[i])
  {
    seq(|s|, i requires 0 <= i < |s| => CharByte(s[i]))
  }

  /** The four little-endian bytes of one `int`. */
  function Int32Bytes(x: int32): (b: seq<byte>)
    ensures |b| == 4
  {
    var u := if x < 0 then x as int + 0x1_0000_0000 else x as int;
    [(u % 0x100) as byte, (u / 0x100 % 0x100) as byte,
     (u / 0x1_0000 % 0x100) as byte, (u / 0x100_0000 % 0x100) as byte]
  }

  /** The bytes of a contiguous run of `int`s, `sizeof(int)` per value. */
  function IntsBytes(xs: seq<int32>): (b: seq<byte>)
    ensures |b| == 4 * |xs|
  {
    if xs == [] then [] else Int32Bytes(xs[0]) + IntsBytes(xs[1..])
  }
}
