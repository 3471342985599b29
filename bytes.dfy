/**
 * The fixed-width unsigned integers the interpreter computes with, and the
 * few bitwise operators it applies to bytes.
 *
 * Rust's `u8` and `u16` become integer subset types, so every wrap-around
 * is written out as an explicit `% 0x100` where the Rust code wraps. The
 * bitwise operators go through `bv8`, which is where Rust's `&`, `|` and
 * `^` on `u8` live.
 */
module Bytes {

  /** Rust's `u8`. */
  type Byte = x: int | 0 <= x < 0x100

  /** Rust's `u16`. */
  type Word = x: int | 0 <= x < 0x1_0000

  /** One 4-bit field of an instruction word. */
  type Nibble = x: int | 0 <= x < 0x10

  /** `a & b` on `u8`. */
  function BitAnd(a: Byte, b: Byte): Byte {
    ((a as bv8) & (b as bv8)) as int
  }

  /** `a | b` on `u8`. */
  function BitOr(a: Byte, b: Byte): Byte {
    ((a as bv8) | (b as bv8)) as int
  }

  /** `a ^ b` on `u8`. */
  function BitXor(a: Byte, b: Byte): Byte {
    ((a as bv8) ^ (b as bv8)) as int
  }

  /** Masking with 1 keeps the least significant bit. */
  lemma BitAndOne(v: Byte)
    ensures BitAnd(v, 1) == v % 2
  {
  }

  /** Masking with 0x80 keeps bit 7 in place: the result is 0 or 128, never 1. */
  lemma BitAndHigh(v: Byte)
    ensures BitAnd(v, 0x80) == if v >= 0x80 then 0x80 else 0
  {
  }
}
