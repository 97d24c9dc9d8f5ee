/** TexcoordWrap: the per-axis clamp / repeat / mirrored-repeat policy that
    every texel decoder applies to its integer texel coordinate. */
module Wrap {
  import opened Memory

  /** The texture dimensions the attribute word can express: 8 << f for a 3-bit f. */
  predicate ValidSize(n: int)
  {
    n == 8 || n == 16 || n == 32 || n == 64 || n == 128 || n == 256 || n == 512 || n == 1024
  }

  /** `8 << field` for the 3-bit size fields of the attribute word. */
  function TexSize(field: int): (n: int)
    requires 0 <= field < 8
    ensures ValidSize(n)
    ensures n % 8 == 0
  {
    assert Pow2(1) == 2 && Pow2(2) == 4 && Pow2(3) == 8 && Pow2(4) == 16;
    assert Pow2(5) == 32 && Pow2(6) == 64 && Pow2(7) == 128;
    8 * Pow2(field)
  }

  function Clamp(c: int, lo: int, hi: int): (r: int)
    requires lo <= hi
    ensures lo <= r <= hi
    ensures lo <= c <= hi ==> r == c
  {
    if c < lo then lo else if c > hi then hi else c
  }

  /** GLSL TexcoordWrap(c, maxc, mode). Bit 0 of mode selects repeat, bit 2
      mirroring; for a power-of-two maxc, `c & maxc` is bit log2(maxc) of c,
      that is (c / maxc) % 2, and `c & (maxc-1)` is c % maxc. */
  function TexcoordWrap(c: int, maxc: int, mode: int): (r: int)
    requires ValidSize(maxc)
    ensures 0 <= r < maxc
  {
    if Bit(mode, 0) != 0 then
      if Bit(mode, 2) != 0 && (c / maxc) % 2 != 0 then (maxc - 1) - c % maxc
      else c % maxc
    else
      Clamp(c, 0, maxc - 1)
  }

  predicate Repeats(mode: int) { Bit(mode, 0) == 1 }
  predicate Mirrors(mode: int) { Bit(mode, 0) == 1 && Bit(mode, 2) == 1 }

  /** A coordinate already inside the texture is returned unchanged, whatever the mode. */
  lemma WrapInRange(c: int, maxc: int, mode: int)
    requires ValidSize(maxc) && 0 <= c < maxc
    ensures TexcoordWrap(c, maxc, mode) == c
  {
    assert c / maxc == 0 && c % maxc == c;
  }

  /** Clamp mode (bit 0 clear) sends everything left of the texture to 0 and
      everything right of it to maxc-1. */
  lemma WrapClampEdges(c: int, maxc: int, mode: int)
    requires ValidSize(maxc) && !Repeats(mode)
    ensures c < 0 ==> TexcoordWrap(c, maxc, mode) == 0
    ensures c >= maxc ==> TexcoordWrap(c, maxc, mode) == maxc - 1
  {
  }

  /** Plain repeat is periodic with period maxc. */
  lemma WrapRepeatPeriodic(c: int, maxc: int, mode: int)
    requires ValidSize(maxc) && Repeats(mode) && !Mirrors(mode)
    ensures TexcoordWrap(c + maxc, maxc, mode) == TexcoordWrap(c, maxc, mode)
    ensures TexcoordWrap(c, maxc, mode) == c % maxc
  {
    assert (c + maxc) % maxc == c % maxc;
  }

  /** Mirrored repeat reflects about the texture edge: c and -1-c land on the same texel. */
  lemma WrapMirrorReflects(c: int, maxc: int, mode: int)
    requires ValidSize(maxc) && Mirrors(mode)
    ensures TexcoordWrap(-1 - c, maxc, mode) == TexcoordWrap(c, maxc, mode)
  {
    var q, m := c / maxc, c % maxc;
    ReflectDivMod(c, maxc);
    assert Bit(mode, 0) != 0 && Bit(mode, 2) != 0;
    if q % 2 != 0 {
      assert (-1 - q) % 2 == 0;
    } else {
      assert (-1 - q) % 2 != 0;
    }
  }

  /** Quotient and remainder of -1-c, the reflection of c. */
  lemma ReflectDivMod(c: int, d: int)
    requires d > 0
    ensures (-1 - c) / d == -1 - c / d && (-1 - c) % d == d - 1 - c % d
  {
    var q, m := c / d, c % d;
    assert -1 - c == (-1 - q) * d + (d - 1 - m);
    DivModUnique(-1 - c, d, -1 - q, d - 1 - m);
  }

  /** Mirrored repeat is periodic with period 2*maxc. */
  lemma WrapMirrorPeriodic(c: int, maxc: int, mode: int)
    requires ValidSize(maxc) && Mirrors(mode)
    ensures TexcoordWrap(c + 2 * maxc, maxc, mode) == TexcoordWrap(c, maxc, mode)
  {
    var q, m := c / maxc, c % maxc;
    ShiftByMultiple(c, maxc, 2);
    assert (q + 2) % 2 == q % 2;
  }

  /** Only bits 0 and 2 of the mode matter. */
  lemma WrapModeBits(c: int, maxc: int, mode: int, mode': int)
    requires ValidSize(maxc)
    requires Bit(mode, 0) == Bit(mode', 0) && Bit(mode, 2) == Bit(mode', 2)
    ensures TexcoordWrap(c, maxc, mode) == TexcoordWrap(c, maxc, mode')
  {
  }

  /** The mirrored and the plain repeat policies are told apart by c = -1 on
      an 8-texel axis: mirroring gives texel 0, repeat texel 7, clamp texel 0. */
  lemma WrapPoliciesDiffer()
    ensures TexcoordWrap(-1, 8, 5) == 0
    ensures TexcoordWrap(-1, 8, 1) == 7
    ensures TexcoordWrap(-1, 8, 0) == 0
  {
    assert Pow2(2) == 4;
  }
}
