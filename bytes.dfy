/** Machine integers shared by every part of the model: Rust's u8 and u16, and the
    wrapping arithmetic the codecs use on them. */
module Bytes {

  /** Rust's u8. */
  newtype byte = x: int | 0 <= x < 256

  /** Rust's u16. */
  newtype u16 = x: int | 0 <= x < 0x1_0000

  /** u8::wrapping_add. */
  function WrapAdd(a: byte, b: byte): byte
  {
    ((a as int + b as int) % 256) as byte
  }

  /** u8::wrapping_sub (Dafny's % is Euclidean, so the remainder is never negative). */
  function WrapSub(a: byte, b: byte): byte
  {
    ((a as int - b as int) % 256) as byte
  }

  lemma WrapSubThenAdd(a: byte, b: byte)
    ensures WrapAdd(WrapSub(a, b), b) == a
  {
  }

  /** u16::from_be_bytes of two bytes. */
  function Be16(hi: byte, lo: byte): u16
  {
    (hi as int * 256 + lo as int) as u16
  }

  /** `vec![0; n]`. */
  function Zeros(n: nat): (z: seq<byte>)
    ensures |z| == n && forall i :: 0 <= i < n ==> z[i] == 0
  {
    seq(n, _ => 0)
  }

  /** `[b; n]`, `repeat(b).take(n)`. */
  function Repeat<T>(b: T, n: nat): (z: seq<T>)
    ensures |z| == n && forall i :: 0 <= i < n ==> z[i] == b
  {
    seq(n, _ => b)
  }

  /** The decimal rendering of a number, as `format!("{}", n)` writes it. */
  function Decimal(n: nat): (s: string)
    ensures |s| >= 1
    decreases n
  {
    var d := ['0', '1', '2', '3', '4', '5', '6', '7', '8', '9'][n % 10];
    if n < 10 then [d] else Decimal(n / 10) + [d]
  }
}
