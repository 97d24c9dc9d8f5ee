/** Bit-field helpers, colour values and the two read-only memory planes
    (texel bytes and palette colours) that every texel decoder reads. */
module Memory {

  /** 2^k. */
  function Pow2(k: nat): (r: nat)
    ensures r >= 1
  {
    if k == 0 then 1 else 2 * Pow2(k - 1)
  }

  /** Bit k of x in two's complement: GLSL `(x >> k) & 1`. Dafny's `/` and `%`
      are Euclidean, so for a positive divisor they are the floor division and
      the non-negative remainder that arithmetic shift and masking compute. */
  function Bit(x: int, k: nat): (r: int)
    ensures r == 0 || r == 1
  {
    (x / Pow2(k)) % 2
  }

  /** An unsigned 8-bit texel-memory value, as read through a usampler2D. */
  type Byte = x: int | 0 <= x < 256

  /** A 5-bit colour numerator (0..31). */
  type Five = x: int | 0 <= x < 32

  /** A palette entry: an RGB555 colour. */
  datatype Rgb5 = Rgb5(r: Five, g: Five, b: Five)

  /** A shader colour, channels as exact reals. */
  datatype RGBA = RGBA(r: real, g: real, b: real, a: real)

  const Transparent := RGBA(0.0, 0.0, 0.0, 0.0)

  predicate Unit(x: real) { 0.0 <= x <= 1.0 }

  /** Every channel lies in [0, 1], the range of a normalised colour. */
  predicate ValidColor(c: RGBA)
  {
    Unit(c.r) && Unit(c.g) && Unit(c.b) && Unit(c.a)
  }

  /** The normalised value k/31 of a 5-bit channel. */
  function Norm5(k: int): (v: real)
    requires 0 <= k < 32
    ensures Unit(v)
    ensures k == 0 <==> v == 0.0
    ensures k == 31 <==> v == 1.0
  {
    k as real / 31.0
  }

  /** A palette entry as sampled from the float palette texture, with the given alpha. */
  function PalColor(c: Rgb5, a: real): RGBA
  {
    RGBA(Norm5(c.r), Norm5(c.g), Norm5(c.b), a)
  }

  /** Columns of a memory plane: addresses are split as (a & 0x3FF, a >> 10). */
  const PlaneWidth := 1024

  /** A 2D texture of PlaneWidth columns, stored row after row. */
  datatype Plane<T> = Plane(cells: seq<T>)

  /** texelFetch(plane, ivec2(x, y), 0); a coordinate outside the plane gives `zero`. */
  function Fetch<T>(p: Plane<T>, x: int, y: int, zero: T): T
  {
    if 0 <= x < PlaneWidth && 0 <= y && y * PlaneWidth + x < |p.cells|
    then p.cells[y * PlaneWidth + x]
    else zero
  }

  /** Both read-only planes a texel decoder samples. */
  datatype Vram = Vram(tex: Plane<Byte>, pal: Plane<Rgb5>)

  /** The texel-memory byte at linear address a: texelFetch(TexMem, ivec2(a&0x3FF, a>>10)). */
  function TexByte(m: Vram, a: int): (b: Byte)
    ensures 0 <= a < |m.tex.cells| ==> b == m.tex.cells[a]
    ensures a < 0 || a >= |m.tex.cells| ==> b == 0
  {
    LinearAddress(m.tex, a, 0);
    Fetch(m.tex, a % PlaneWidth, a / PlaneWidth, 0)
  }

  /** The palette entry at linear address a: texelFetch(TexPalMem, ivec2(a&0x3FF, a>>10)). */
  function PalEntry(m: Vram, a: int): (c: Rgb5)
    ensures 0 <= a < |m.pal.cells| ==> c == m.pal.cells[a]
    ensures a < 0 || a >= |m.pal.cells| ==> c == Rgb5(0, 0, 0)
  {
    LinearAddress(m.pal, a, Rgb5(0, 0, 0));
    Fetch(m.pal, a % PlaneWidth, a / PlaneWidth, Rgb5(0, 0, 0))
  }

  /** Splitting a linear address into (column, row) and fetching reads cell a
      of the row-major store: the split loses nothing. */
  lemma LinearAddress<T>(p: Plane<T>, a: int, zero: T)
    ensures 0 <= a < |p.cells| ==> Fetch(p, a % PlaneWidth, a / PlaneWidth, zero) == p.cells[a]
    ensures a < 0 || a >= |p.cells| ==> Fetch(p, a % PlaneWidth, a / PlaneWidth, zero) == zero
  {
    assert (a / PlaneWidth) * PlaneWidth + a % PlaneWidth == a;
  }

  /** Adding k*d moves the quotient by k and keeps the remainder. */
  lemma ShiftByMultiple(c: int, d: int, k: int)
    requires d > 0
    ensures (c + k * d) / d == c / d + k && (c + k * d) % d == c % d
  {
    var q, m := c / d, c % d;
    assert (q + k) * d == q * d + k * d;
    DivModUnique(c + k * d, d, q + k, m);
  }

  /** Euclidean division is determined by the quotient-remainder equation. */
  lemma DivModUnique(a: int, d: int, q: int, m: int)
    requires d > 0 && a == q * d + m && 0 <= m < d
    ensures a / d == q && a % d == m
  {
    var q', m' := a / d, a % d;
    assert a == q' * d + m' && 0 <= m' < d;
    if q' > q {
      MulGap(q', q, d);
      assert false;
    } else if q' < q {
      MulGap(q, q', d);
      assert false;
    }
  }

  /** Distinct multiples of d are at least d apart. */
  lemma MulGap(x: int, y: int, d: int)
    requires x > y && d > 0
    ensures x * d - y * d >= d
  {
    var k := x - y - 1;
    assert x * d - y * d == (x - y) * d;
    assert (x - y) * d == k * d + d;
    assert k * d >= 0;
  }

  /** Shifting right by b then by c is shifting right by b * c. */
  lemma DivDiv(a: int, b: int, c: int)
    requires b > 0 && c > 0
    ensures (a / b) / c == a / (b * c)
  {
    var q1, r1 := a / b, a % b;
    var q2, r2 := q1 / c, q1 % c;
    NestedQuotient(a, b, c, q1, r1, q2, r2);
    DivModUnique(a, b * c, q2, r2 * b + r1);
  }

  lemma NestedQuotient(a: int, b: int, c: int, q1: int, r1: int, q2: int, r2: int)
    requires b > 0 && c > 0
    requires a == q1 * b + r1 && 0 <= r1 < b
    requires q1 == q2 * c + r2 && 0 <= r2 < c
    ensures a == q2 * (b * c) + (r2 * b + r1) && 0 <= r2 * b + r1 < b * c
  {
    MulRegroup(q2, c, r2, b);
    MulBelow(r2, c, b);
  }

  lemma MulRegroup(q: int, c: int, r: int, b: int)
    ensures (q * c + r) * b == q * (b * c) + r * b
  {
    assert (q * c + r) * b == (q * c) * b + r * b;
    assert (q * c) * b == q * (c * b);
  }

  lemma MulBelow(r: int, c: int, b: int)
    requires 0 <= r < c && b > 0
    ensures 0 <= r * b <= b * c - b
  {
    assert (c - 1 - r) * b >= 0;
    assert (c - 1 - r) * b == c * b - b - r * b;
  }

  /** The product of two non-negative reals is non-negative. */
  lemma NonnegProduct(a: real, b: real)
    requires a >= 0.0 && b >= 0.0
    ensures a * b >= 0.0
  {
  }

  /** Strictly smaller times no larger positive factor is strictly smaller. */
  lemma MulMonotone2(a: int, b: int, p: int, q: int)
    requires 0 <= a < b && 0 < p <= q
    ensures a * p < b * q
  {
    MulMonotone(a, b, p);
    assert a * p < b * p by { assert b * p - a * p == (b - a) * p; }
    assert b * q - b * p == b * (q - p);
  }

  /** Multiplying by a non-negative factor keeps the order. */
  lemma MulMonotone(a: int, b: int, p: int)
    requires 0 <= a <= b && p >= 0
    ensures a * p <= b * p
  {
    assert b * p - a * p == (b - a) * p;
  }

  /** Pow2 is monotone. */
  lemma Pow2Monotone(j: nat, k: nat)
    requires j <= k
    ensures Pow2(j) <= Pow2(k)
    decreases k
  {
    if j < k {
      Pow2Monotone(j, k - 1);
    }
  }

  /** 2^10 = 1024. */
  lemma Pow2Ten()
    ensures Pow2(10) == 1024
  {
    assert Pow2(2) == 4 && Pow2(4) == 16 && Pow2(6) == 64 && Pow2(8) == 256;
  }
}
