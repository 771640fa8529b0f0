/**
 * Machine-width integers and the handful of Rust `u8` primitives the
 * interpreter relies on. Integers in Dafny are unbounded, so every
 * wrap-around of the source is written out here explicitly.
 */
module Bytes {

  /** Rust `u8`. */
  type uint8 = x: int | 0 <= x < 0x100

  /** Rust `u16`; also the interpreter's `Address`. */
  type uint16 = x: int | 0 <= x < 0x1_0000

  datatype Option<+T> = None | Some(value: T)

  /**
   * `u8::overflowing_add`: the sum modulo 256 and whether it wrapped.
   */
  function OverflowingAdd(a: uint8, b: uint8): (r: (uint8, bool))
    ensures r.0 == (a + b) % 0x100
    ensures r.1 <==> a + b > 0xFF
  {
    if a + b > 0xFF then (a + b - 0x100, true) else (a + b, false)
  }

  /**
   * `u8::overflowing_sub`: the difference modulo 256 and whether it
   * borrowed (wrapped below zero).
   */
  function OverflowingSub(a: uint8, b: uint8): (r: (uint8, bool))
    ensures r.0 == (a - b) % 0x100
    ensures r.1 <==> a < b
  {
    if a < b then (a - b + 0x100, true) else (a - b, false)
  }

  /** Bitwise `|` on `u8`. */
  function BitOr(a: uint8, b: uint8): uint8
  {
    ((a as bv8) | (b as bv8)) as int
  }

  /** Bitwise `&` on `u8`. */
  function BitAnd(a: uint8, b: uint8): uint8
  {
    ((a as bv8) & (b as bv8)) as int
  }

  /** Bitwise `^` on `u8`. */
  function BitXor(a: uint8, b: uint8): uint8
  {
    ((a as bv8) ^ (b as bv8)) as int
  }

  /** Bit `i` of `b`, counting from the least significant bit. */
  predicate Bit(b: uint8, i: nat)
    requires i < 8
  {
    if i == 0 then b % 2 == 1
    else if i == 1 then (b / 0x02) % 2 == 1
    else if i == 2 then (b / 0x04) % 2 == 1
    else if i == 3 then (b / 0x08) % 2 == 1
    else if i == 4 then (b / 0x10) % 2 == 1
    else if i == 5 then (b / 0x20) % 2 == 1
    else if i == 6 then (b / 0x40) % 2 == 1
    else (b / 0x80) % 2 == 1
  }
}
