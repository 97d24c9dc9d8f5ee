/** Properties of the texel decoders: the bit layout of each packed format
    (decoding what was packed gives the fields back), the alpha expansions,
    the block layout of the compressed format and its colour table. */
module TexelProps {
  import opened Memory
  import opened Wrap
  import opened Texel

  // ---------------------------------------------------------------------
  // A3I5 and A5I3

  /** The 3-bit A3I5 alpha a = b >> 5 expands to 4a + a/2 on a 5-bit scale. */
  lemma A3I5AlphaExpansion(b: Byte)
    ensures A3I5Alpha(b) == 4 * (b / 32) + (b / 32) / 2
  {
    var t := b / 32;
    DivModUnique(t * 32, 8, 4 * t, 0);
    DivModUnique(t * 32, 64, t / 2, (t % 2) * 32);
  }

  /** The expansion is strictly increasing in the 3-bit alpha and maps the
      ends of its range to the ends of the 5-bit range. */
  lemma A3I5AlphaMonotone(b1: Byte, b2: Byte)
    ensures b1 / 32 < b2 / 32 ==> A3I5Alpha(b1) < A3I5Alpha(b2)
    ensures b1 / 32 == 0 ==> A3I5Alpha(b1) == 0
    ensures b1 / 32 == 7 ==> A3I5Alpha(b1) == 31
  {
    A3I5AlphaExpansion(b1);
    A3I5AlphaExpansion(b2);
  }

  /** An A3I5 byte packed as alpha << 5 | index decodes to that index and the
      expanded alpha. */
  lemma A3I5RoundTrip(alpha: int, index: int)
    requires 0 <= alpha < 8 && 0 <= index < 32
    ensures A3I5Index(alpha * 32 + index) == index
    ensures A3I5Alpha(alpha * 32 + index) == 4 * alpha + alpha / 2
  {
    DivModUnique(alpha * 32 + index, 32, alpha, index);
    A3I5AlphaExpansion(alpha * 32 + index);
  }

  /** An A5I3 byte packed as alpha << 3 | index decodes to exactly that alpha and index. */
  lemma A5I3RoundTrip(alpha: int, index: int)
    requires 0 <= alpha < 32 && 0 <= index < 8
    ensures A5I3Alpha(alpha * 8 + index) == alpha
    ensures A5I3Index(alpha * 8 + index) == index
  {
    DivModUnique(alpha * 8 + index, 8, alpha, index);
    DivModUnique(alpha * 8, 8, alpha, 0);
  }

  // ---------------------------------------------------------------------
  // I2 and I4

  /** Four 2-bit indices packed lowest-first into a byte come back out, texel
      x reading the crumb x & 3. */
  lemma I2RoundTrip(i0: int, i1: int, i2: int, i3: int, x: int)
    requires 0 <= i0 < 4 && 0 <= i1 < 4 && 0 <= i2 < 4 && 0 <= i3 < 4
    ensures I2Index(i0 + 4 * i1 + 16 * i2 + 64 * i3, x) == [i0, i1, i2, i3][x % 4]
  {
    var b := i0 + 4 * i1 + 16 * i2 + 64 * i3;
    assert Pow2(2) == 4 && Pow2(4) == 16 && Pow2(6) == 64;
    DivModUnique(b, 4, i1 + 4 * i2 + 16 * i3, i0);
    DivModUnique(b, 16, i2 + 4 * i3, i0 + 4 * i1);
    DivModUnique(b, 64, i3, i0 + 4 * i1 + 16 * i2);
    DivModUnique(i1 + 4 * i2 + 16 * i3, 4, i2 + 4 * i3, i1);
    DivModUnique(i2 + 4 * i3, 4, i3, i2);
  }

  /** Two nibbles packed low-first: odd texels read the high nibble, even ones the low. */
  lemma I4RoundTrip(lo: int, hi: int, x: int)
    requires 0 <= lo < 16 && 0 <= hi < 16
    ensures I4Index(lo + 16 * hi, x) == (if x % 2 == 1 then hi else lo)
  {
    DivModUnique(lo + 16 * hi, 16, hi, lo);
  }

  /** I2 addressing agrees with the reference layout: texel n of the row-major
      texture is crumb n % 4 of byte n / 4. The source selects the crumb by
      x & 3 instead of n & 3; they agree whenever n and x agree in their low
      two bits, which TexelNumberLowBits shows of every in-texture texel.
      FetchI2 reads I2Texel at the wrapped coordinate's texel number and column. */
  lemma I2TexelLayout(m: Vram, addr: VramAddr, n: int, x: int, alpha0: real)
    requires Unit(alpha0) && n % 4 == x % 4
    ensures var index := PackedField(TexByte(m, addr.texel + n / 4), n % 4, 2);
            I2Texel(m, addr, n, x, alpha0) ==
              PalColor(PalEntry(m, addr.palette * 4 + index), if index > 0 then 1.0 else alpha0)
  {
    var b := TexByte(m, addr.texel + n / 4);
    I2Crumb(b, n, x);
    SameIndexSameColor(m, addr.palette * 4, I2Index(b, x), PackedField(b, n % 4, 2), alpha0);
  }

  /** The crumb the source selects by x & 3 is crumb n % 4 of the byte. */
  lemma I2Crumb(b: Byte, n: int, x: int)
    requires n % 4 == x % 4
    ensures I2Index(b, x) == PackedField(b, n % 4, 2)
  {
    assert Pow2(2) == 4;
    assert 2 * (x % 4) == (n % 4) * 2;
  }

  /** I4 addressing agrees with the reference layout: texel n is nibble n % 2
      of byte n / 2 whenever n and the column x have the same parity, which
      TexelNumberLowBits shows of every in-texture texel. */
  lemma I4TexelLayout(m: Vram, addr: VramAddr, n: int, x: int, alpha0: real)
    requires Unit(alpha0) && n % 2 == x % 2
    ensures var index := PackedField(TexByte(m, addr.texel + n / 2), n % 2, 4);
            I4Texel(m, addr, n, x, alpha0) ==
              PalColor(PalEntry(m, addr.palette * 8 + index), if index > 0 then 1.0 else alpha0)
  {
    var b := TexByte(m, addr.texel + n / 2);
    I4Nibble(b, n, x);
    SameIndexSameColor(m, addr.palette * 8, I4Index(b, x), PackedField(b, n % 2, 4), alpha0);
  }

  /** The nibble the source selects by x & 1 is nibble n % 2 of the byte. */
  lemma I4Nibble(b: Byte, n: int, x: int)
    requires n % 2 == x % 2
    ensures I4Index(b, x) == PackedField(b, n % 2, 4)
  {
    assert Pow2(0) == 1 && Pow2(4) == 16;
    if x % 2 != 0 {
      assert PackedField(b, 1, 4) == b / 16;
    } else {
      assert PackedField(b, 0, 4) == b % 16;
    }
  }

  /** The texel number and the column agree in their low two bits, because
      every width is a multiple of 4. */
  lemma TexelNumberLowBits(w: TexCoord)
    requires ValidCoord(w) && InTexture(w)
    ensures TexelNumber(w) % 4 == w.s % 4 && TexelNumber(w) % 2 == w.s % 2
  {
    SameLowBits(TexelNumber(w), w.s, w.t, w.width, 4);
    SameLowBits(TexelNumber(w), w.s, w.t, w.width, 2);
  }

  /** Equal indices read the same palette colour with the same index alpha. */
  lemma SameIndexSameColor(m: Vram, base: int, i: int, j: int, alpha0: real)
    requires i == j
    ensures PalColor(PalEntry(m, base + i), IndexAlpha(i, alpha0)) ==
            PalColor(PalEntry(m, base + j), if j > 0 then 1.0 else alpha0)
  {
  }

  /** y * w + x and x agree modulo any k that divides w. */
  lemma SameLowBits(n: int, x: int, y: int, w: int, k: int)
    requires ValidSize(w) && (k == 2 || k == 4) && 0 <= x && 0 <= y
    requires n == y * w + x
    ensures n % k == x % k
  {
    assert y * w == (y * (w / k)) * k;
    ShiftByMultiple(x, k, y * (w / k));
  }

  // ---------------------------------------------------------------------
  // Direct colour

  /** The four 1-5-5-5 fields of the little-endian word lo | hi << 8:
      red in bits 0-4, green 5-9, blue 10-14, alpha bit 15. */
  lemma DirectWord(lo: Byte, hi: Byte)
    ensures var w := lo + 256 * hi; var d := DecodeDirect(lo, hi);
            d.r == w % 32 && d.g == (w / 32) % 32 && d.b == (w / 1024) % 32 && d.a == w / 32768
  {
    var w := lo + 256 * hi;
    DivModUnique(w, 32, lo / 32 + 8 * hi, lo % 32);
    DivModUnique(lo / 32 + 8 * hi, 32, hi / 4, lo / 32 + 8 * (hi % 4));
    DivModUnique(w, 1024, hi / 4, lo + 256 * (hi % 4));
    DivModUnique(hi / 4, 32, hi / 128, (hi % 128) / 4);
    DivModUnique(w, 32768, hi / 128, lo + 256 * (hi % 128));
  }

  /** The 16-bit word of a direct-colour texel. */
  function Word1555(d: Direct1555): (w: int)
    requires d.a == 0 || d.a == 1
    ensures 0 <= w < 0x10000
  {
    d.r + 32 * d.g + 1024 * d.b + 32768 * d.a
  }

  /** Storing a 1-5-5-5 word as two little-endian bytes and decoding them gives the fields back. */
  lemma DirectRoundTrip(d: Direct1555)
    requires d.a == 0 || d.a == 1
    ensures DecodeDirect(Word1555(d) % 256, Word1555(d) / 256) == d
  {
    var w := Word1555(d);
    DirectWord(w % 256, w / 256);
    assert w % 256 + 256 * (w / 256) == w;
    DivModUnique(w, 32, d.g + 32 * d.b + 1024 * d.a, d.r);
    DivModUnique(d.g + 32 * d.b + 1024 * d.a, 32, d.b + 32 * d.a, d.g);
    DivModUnique(w, 1024, d.b + 32 * d.a, d.r + 32 * d.g);
    DivModUnique(d.b + 32 * d.a, 32, d.a, d.b);
    DivModUnique(w, 32768, d.a, d.r + 32 * d.g + 1024 * d.b);
  }

  // ---------------------------------------------------------------------
  // Compressed 4x4 blocks

  /** Texel slots 0 and 2 keep their palette-info words in slot 1: two bytes
      per 4-byte block, slot 0's in its first half and slot 2's in its second. */
  lemma Slot1Layout(a: int)
    ensures 0 <= a < 0x20000 ==> Slot1Addr(a) == 0x20000 + 2 * (a / 4)
    ensures 0x40000 <= a < 0x60000 ==> Slot1Addr(a) == 0x30000 + 2 * ((a - 0x40000) / 4)
    ensures 0 <= a < 0x20000 || 0x40000 <= a < 0x60000 ==> 0x20000 <= Slot1Addr(a) && Slot1Addr(a) + 1 < 0x40000
  {
    if 0x40000 <= a < 0x60000 {
      ShiftByMultiple(a - 0x40000, 0x20000, 2);
    }
  }

  /** The compressed colour table: values 0 and 1 read palette entries 0 and 1
      in every mode; a texel is transparent exactly for value 3 in modes 0 and 1,
      and every other texel is opaque. */
  lemma CompressedTable(val: int, mode: int, c0: Rgb5, c1: Rgb5, c2: Rgb5, c3: Rgb5)
    requires 0 <= val < 4 && 0 <= mode < 4
    ensures var c := CompressedColor(val, mode, c0, c1, c2, c3);
            && (val == 0 ==> c == PalColor(c0, 1.0))
            && (val == 1 ==> c == PalColor(c1, 1.0))
            && (val == 2 && mode != 1 && mode != 3 ==> c == PalColor(c2, 1.0))
            && (val == 3 && mode == 2 ==> c == PalColor(c3, 1.0))
            && (c.a == 0.0 <==> val == 3 && mode < 2)
            && (c.a == 0.0 ==> c == Transparent)
            && (c.a != 0.0 ==> c.a == 1.0)
  {
  }

  /** The interpolated colours on the 5-bit numerators: mode 3 blends 5:3 for
      value 2 and 3:5 for value 3, each channel (5 c0 + 3 c1) / 8 (resp.
      (3 c0 + 5 c1) / 8) normalised by 31; mode 1 takes the midpoint
      (c0 + c1) / 2. The two mode-3 blends are mirror images, and the
      midpoint is their mean. */
  lemma CompressedInterpolants(c0: Rgb5, c1: Rgb5, c2: Rgb5, c3: Rgb5)
    ensures CompressedColor(2, 3, c0, c1, c2, c3) ==
            RGBA((5.0 * c0.r as real + 3.0 * c1.r as real) / 248.0,
                 (5.0 * c0.g as real + 3.0 * c1.g as real) / 248.0,
                 (5.0 * c0.b as real + 3.0 * c1.b as real) / 248.0, 1.0)
    ensures CompressedColor(3, 3, c0, c1, c2, c3) ==
            RGBA((3.0 * c0.r as real + 5.0 * c1.r as real) / 248.0,
                 (3.0 * c0.g as real + 5.0 * c1.g as real) / 248.0,
                 (3.0 * c0.b as real + 5.0 * c1.b as real) / 248.0, 1.0)
    ensures CompressedColor(2, 1, c0, c1, c2, c3) ==
            RGBA((c0.r as real + c1.r as real) / 62.0,
                 (c0.g as real + c1.g as real) / 62.0,
                 (c0.b as real + c1.b as real) / 62.0, 1.0)
    ensures CompressedColor(3, 3, c0, c1, c2, c3) == CompressedColor(2, 3, c1, c0, c2, c3)
    ensures var p, q, h := CompressedColor(2, 3, c0, c1, c2, c3), CompressedColor(3, 3, c0, c1, c2, c3),
                           CompressedColor(2, 1, c0, c1, c2, c3);
            h.r == (p.r + q.r) / 2.0 && h.g == (p.g + q.g) / 2.0 && h.b == (p.b + q.b) / 2.0
  {
  }
}
