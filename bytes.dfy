/**
 * Octets and the 4-bit fields VWTP 2.0 packs into them.
 *
 * The agent manipulates bytes with Python's `>> 4`, `& 0xf`, `<< 4 | s` and
 * `& 0x10`. On a single octet these are plain arithmetic, which is how they are
 * defined here; the lemmas at the end state, on 8-bit vectors, that each
 * operator the agent writes equals that arithmetic.
 */
module Bytes {
  /** One octet of a `bytearray`. */
  type byte = b: int | 0 <= b < 256

  /** A 4-bit field: a VWTP opcode or sequence number. */
  type nibble = n: int | 0 <= n < 16

  const Space: byte := 0x20

  /** `b >> 4` */
  function HighNibble(b: byte): nibble { b / 16 }

  /** `b & 0xf` */
  function LowNibble(b: byte): nibble { b % 16 }

  /** `hi << 4 | lo`; the two nibbles read back unchanged. */
  function Pack(hi: nibble, lo: nibble): (b: byte)
    ensures HighNibble(b) == hi && LowNibble(b) == lo
  {
    hi * 16 + lo
  }

  /** `b & 0x10 != 0` */
  predicate Bit4(b: byte) { (b / 16) % 2 == 1 }

  function Min(a: int, b: int): int { if a <= b then a else b }

  /** Python 2 `str` used as bytes: each character is its own code. */
  function Ascii(s: string): (r: seq<byte>)
    requires forall i :: 0 <= i < |s| ==> s[i] as int < 128
    ensures |r| == |s|
    ensures forall i :: 0 <= i < |s| ==> r[i] == s[i] as int
  {
    seq(|s|, i requires 0 <= i < |s| => s[i] as int)
  }

  /** Advancing a 4-bit counter that wraps by y steps is adding y modulo 16. */
  lemma AddModulo(x: int, y: int)
    ensures (x % 16 + y) % 16 == (x + y) % 16
  {
  }

  // On an octet, the bit operations the agent writes are the arithmetic above.

  lemma HighNibbleIsShift(x: bv8)
    ensures x >> 4 == x / 16
  {
  }

  lemma LowNibbleIsMask(x: bv8)
    ensures x & 0xf == x % 16
  {
  }

  lemma PackIsShiftOr(hi: bv8, lo: bv8)
    requires hi < 16 && lo < 16
    ensures (hi << 4) | lo == hi * 16 + lo
  {
  }

  /** On a 16-bit value, `x & 0xff` is the low byte `x % 256` and `x >> 8` the high byte `x / 256`. */
  lemma ByteSplit(x: bv16)
    ensures x & 0xff == x % 256 && x >> 8 == x / 256
  {
  }

  lemma Bit4IsMask(x: bv8)
    ensures x & 0x10 != 0 <==> (x / 16) % 2 == 1
  {
  }
}
