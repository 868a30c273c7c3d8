/** Machine integers the source relies on: the `int` of the tracer's
    resolution and of parsed face indices, and the implicit conversion to
    `size_t` that a loop comparison `i < h` performs on a 64-bit target. */
module Ints {

  const SizeTModulus: int := 0x1_0000_0000_0000_0000

  predicate InInt32(n: int) {
    -0x8000_0000 <= n <= 0x7fff_ffff
  }

  type Int32 = n: int | -0x8000_0000 <= n <= 0x7fff_ffff

  /** `PTRDIFF_MAX` on a 64-bit target, an upper bound of every `vector::max_size()`. */
  const PtrdiffMax: int := 0x7fff_ffff_ffff_ffff

  /** The value an `int` takes when converted to the unsigned 64-bit `size_t`:
      the one value in range that is congruent to it modulo 2^64. */
  function SizeT(n: Int32): (r: nat)
    ensures r < SizeTModulus
    ensures (r - n) % SizeTModulus == 0
  {
    var m: int := n;
    if 0 <= m then m else m + SizeTModulus
  }

  /** The conversion is the only value in range congruent to `n`: any value
      the modular rule admits is the one `SizeT` returns. */
  lemma SizeTUnique(n: Int32, r: int)
    requires 0 <= r < SizeTModulus
    requires (r - n) % SizeTModulus == 0
    ensures r == SizeT(n)
  {
    var s := SizeT(n);
    var m: int := n;
    if 0 <= m {
      ZeroInWindow(r - m);
    } else {
      ZeroInWindow(r - (m + SizeTModulus));
    }
  }

  lemma ZeroInWindow(x: int)
    requires -SizeTModulus < x < SizeTModulus
    requires (x + SizeTModulus) % SizeTModulus == 0
    ensures x == 0
  {
  }
}
