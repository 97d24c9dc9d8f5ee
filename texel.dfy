/** The seven per-format texel decoders (TextureFetch_*). Each wraps the
    texel coordinate, reads the texel memory plane at a linear address split
    into (a & 0x3FF, a >> 10) and, for the paletted formats, reads the
    palette plane the same way. */
module Texel {
  import opened Memory
  import opened Wrap

  /** ivec2 addr: x is the texel base address, y the palette base. */
  datatype VramAddr = VramAddr(texel: int, palette: int)

  /** ivec4 st: (s, t) the integer texel coordinate, (width, height) the texture size. */
  datatype TexCoord = TexCoord(s: int, t: int, width: int, height: int)

  predicate ValidCoord(st: TexCoord)
  {
    ValidSize(st.width) && ValidSize(st.height)
  }

  /** The coordinate lies inside the texture. */
  predicate InTexture(st: TexCoord)
  {
    0 <= st.s < st.width && 0 <= st.t < st.height
  }

  /** st after `st.x = TexcoordWrap(st.x, st.z, wrapmode>>0)` and
      `st.y = TexcoordWrap(st.y, st.w, wrapmode>>1)`. */
  function WrapCoord(st: TexCoord, wrapmode: int): (w: TexCoord)
    requires ValidCoord(st)
    ensures ValidCoord(w) && InTexture(w)
    ensures w.width == st.width && w.height == st.height
  {
    st.(s := TexcoordWrap(st.s, st.width, wrapmode), t := TexcoordWrap(st.t, st.height, wrapmode / 2))
  }

  /** (st.y * st.z) + st.x: the row-major number of a texel inside the texture. */
  function TexelNumber(st: TexCoord): (n: int)
    requires ValidCoord(st) && InTexture(st)
    ensures 0 <= n
  {
    st.t * st.width + st.s
  }

  /** Field k (counting from the least significant end) of width `bits` in a
      byte: the reference layout of the sub-byte paletted formats, whose
      first texel sits in the lowest bits. */
  function PackedField(b: Byte, k: nat, bits: nat): (f: nat)
    requires bits >= 1
    ensures f < Pow2(bits)
  {
    (b / Pow2(k * bits)) % Pow2(bits)
  }

  // ---------------------------------------------------------------------
  // Byte-level decoding of one texel

  /** A3I5 alpha: (b & 0xE0) then (a >> 3) + (a >> 6), a 3-to-5-bit expansion. */
  function A3I5Alpha(b: Byte): (a: int)
    ensures 0 <= a < 32
  {
    var hi := (b / 32) * 32;
    hi / 8 + hi / 64
  }

  /** A3I5 palette index: b & 0x1F. */
  function A3I5Index(b: Byte): (i: int)
    ensures 0 <= i < 32
  {
    b % 32
  }

  /** A5I3 alpha: (b & 0xF8) >> 3. */
  function A5I3Alpha(b: Byte): (a: int)
    ensures 0 <= a < 32
  {
    ((b / 8) * 8) / 8
  }

  /** A5I3 palette index: b & 0x07. */
  function A5I3Index(b: Byte): (i: int)
    ensures 0 <= i < 8
  {
    b % 8
  }

  /** I2 index of texel x: (b >> (2 * (x & 3))) & 0x03. */
  function I2Index(b: Byte, x: int): (i: int)
    ensures 0 <= i < 4
  {
    (b / Pow2(2 * (x % 4))) % 4
  }

  /** I4 index of texel x: the high nibble when x is odd, else the low one. */
  function I4Index(b: Byte, x: int): (i: int)
    ensures 0 <= i < 16
  {
    if x % 2 != 0 then b / 16 else b % 16
  }

  /** The alpha of I2/I4/I8: opaque for a non-zero index, alpha0 for index 0. */
  function IndexAlpha(index: int, alpha0: real): real
  {
    if index > 0 then 1.0 else alpha0
  }

  /** A direct-colour texel, unpacked from its 16-bit 1-5-5-5 word. */
  datatype Direct1555 = Direct1555(r: Five, g: Five, b: Five, a: int)

  /** Fields of the little-endian word lo | hi << 8: r = lo & 0x1F,
      g = (lo >> 5) | ((hi & 0x03) << 3), b = (hi & 0x7C) >> 2, a = hi >> 7.
      The `|` joins disjoint bit ranges, so it is an addition. */
  function DecodeDirect(lo: Byte, hi: Byte): (d: Direct1555)
    ensures d.a == 0 || d.a == 1
  {
    Direct1555(lo % 32, lo / 32 + (hi % 4) * 8, (hi % 128) / 4, hi / 128)
  }

  // ---------------------------------------------------------------------
  // The decoders

  /** TextureFetch_A3I5: one byte per texel, 3-bit alpha, 5-bit index into
      the palette at (palette << 3). */
  function FetchA3I5(m: Vram, addr: VramAddr, st: TexCoord, wrapmode: int): (c: RGBA)
    requires ValidCoord(st)
    ensures ValidColor(c)
  {
    var px := TexByte(m, addr.texel + TexelNumber(WrapCoord(st, wrapmode)));
    PalColor(PalEntry(m, addr.palette * 8 + A3I5Index(px)), Norm5(A3I5Alpha(px)))
  }

  /** TextureFetch_I2: four texels per byte, palette at (palette << 2). */
  function FetchI2(m: Vram, addr: VramAddr, st: TexCoord, wrapmode: int, alpha0: real): (c: RGBA)
    requires ValidCoord(st) && Unit(alpha0)
    ensures ValidColor(c)
  {
    var w := WrapCoord(st, wrapmode);
    I2Texel(m, addr, TexelNumber(w), w.s, alpha0)
  }

  /** The colour of I2 texel number n, in column x of its row. */
  function I2Texel(m: Vram, addr: VramAddr, n: int, x: int, alpha0: real): (c: RGBA)
    requires Unit(alpha0)
    ensures ValidColor(c)
  {
    var px := TexByte(m, addr.texel + n / 4);
    var index := I2Index(px, x);
    PalColor(PalEntry(m, addr.palette * 4 + index), IndexAlpha(index, alpha0))
  }

  /** TextureFetch_I4: two texels per byte, palette at (palette << 3). */
  function FetchI4(m: Vram, addr: VramAddr, st: TexCoord, wrapmode: int, alpha0: real): (c: RGBA)
    requires ValidCoord(st) && Unit(alpha0)
    ensures ValidColor(c)
  {
    var w := WrapCoord(st, wrapmode);
    I4Texel(m, addr, TexelNumber(w), w.s, alpha0)
  }

  /** The colour of I4 texel number n, in column x of its row. */
  function I4Texel(m: Vram, addr: VramAddr, n: int, x: int, alpha0: real): (c: RGBA)
    requires Unit(alpha0)
    ensures ValidColor(c)
  {
    var px := TexByte(m, addr.texel + n / 2);
    var index := I4Index(px, x);
    PalColor(PalEntry(m, addr.palette * 8 + index), IndexAlpha(index, alpha0))
  }

  /** TextureFetch_I8: one byte per texel, palette at (palette << 3). */
  function FetchI8(m: Vram, addr: VramAddr, st: TexCoord, wrapmode: int, alpha0: real): (c: RGBA)
    requires ValidCoord(st) && Unit(alpha0)
    ensures ValidColor(c)
  {
    var index := TexByte(m, addr.texel + TexelNumber(WrapCoord(st, wrapmode)));
    PalColor(PalEntry(m, addr.palette * 8 + index), IndexAlpha(index, alpha0))
  }

  /** TextureFetch_A5I3: one byte per texel, 5-bit alpha, 3-bit index. */
  function FetchA5I3(m: Vram, addr: VramAddr, st: TexCoord, wrapmode: int): (c: RGBA)
    requires ValidCoord(st)
    ensures ValidColor(c)
  {
    var px := TexByte(m, addr.texel + TexelNumber(WrapCoord(st, wrapmode)));
    PalColor(PalEntry(m, addr.palette * 8 + A5I3Index(px)), Norm5(A5I3Alpha(px)))
  }

  /** TextureFetch_Direct: two bytes per texel at texel + (n << 1), low byte first. */
  function FetchDirect(m: Vram, addr: VramAddr, st: TexCoord, wrapmode: int): (c: RGBA)
    requires ValidCoord(st)
    ensures ValidColor(c)
    ensures c.a == 0.0 || c.a == 1.0
  {
    var a := addr.texel + TexelNumber(WrapCoord(st, wrapmode)) * 2;
    var d := DecodeDirect(TexByte(m, a), TexByte(m, a + 1));
    RGBA(Norm5(d.r), Norm5(d.g), Norm5(d.b), d.a as real)
  }

  // ---------------------------------------------------------------------
  // 4x4-block compressed format

  /** The byte holding row (y & 3) of the 4x4 block containing (x, y):
      ((y & 0x3FC) * (w >> 2)) + (x & 0x3FC) + (y & 0x3). Inside the texture,
      blocks are numbered row-major, (y/4)*(w/4) + x/4, four bytes each, one
      byte per texel row. */
  function CompressedByteOffset(x: int, y: int, w: int): (off: int)
    ensures ValidSize(w) && 0 <= x < w && 0 <= y < 1024 ==>
              off == 4 * ((y / 4) * (w / 4) + x / 4) + y % 4
  {
    assert ValidSize(w) && 0 <= x < w && 0 <= y < 1024 ==>
             x % 1024 == x && y % 1024 == y && (y / 4 * 4) * (w / 4) == 4 * ((y / 4) * (w / 4));
    ((y % 1024) / 4 * 4) * (w / 4) + (x % 1024) / 4 * 4 + y % 4
  }

  /** The address of a block's 16-bit palette-info word:
      0x20000 + ((a & 0x1FFFC) >> 1), plus 0x10000 when a >= 0x40000. */
  function Slot1Addr(a: int): (s: int)
    ensures 0x20000 <= s && s + 1 < 0x40000
  {
    0x20000 + ((a % 0x20000) / 4 * 4) / 2 + (if a >= 0x40000 then 0x10000 else 0)
  }

  /** The palette-info word: the byte at s | (the byte at s + 1) << 8. */
  function PalInfo(m: Vram, s: int): (w: int)
    ensures 0 <= w < 0x10000
  {
    TexByte(m, s) + TexByte(m, s + 1) * 256
  }

  /** (c0 + c1) / 2 on the colour channels, opaque. */
  function Mid(c0: Rgb5, c1: Rgb5): RGBA
  {
    RGBA((Norm5(c0.r) + Norm5(c1.r)) / 2.0, (Norm5(c0.g) + Norm5(c1.g)) / 2.0,
         (Norm5(c0.b) + Norm5(c1.b)) / 2.0, 1.0)
  }

  /** (c0 * 5 + c1 * 3) / 8 on the colour channels, opaque. */
  function FiveThree(c0: Rgb5, c1: Rgb5): RGBA
  {
    RGBA((Norm5(c0.r) * 5.0 + Norm5(c1.r) * 3.0) / 8.0, (Norm5(c0.g) * 5.0 + Norm5(c1.g) * 3.0) / 8.0,
         (Norm5(c0.b) * 5.0 + Norm5(c1.b) * 3.0) / 8.0, 1.0)
  }

  /** (c0 * 3 + c1 * 5) / 8 on the colour channels, opaque. */
  function ThreeFive(c0: Rgb5, c1: Rgb5): RGBA
  {
    RGBA((Norm5(c0.r) * 3.0 + Norm5(c1.r) * 5.0) / 8.0, (Norm5(c0.g) * 3.0 + Norm5(c1.g) * 5.0) / 8.0,
         (Norm5(c0.b) * 3.0 + Norm5(c1.b) * 5.0) / 8.0, 1.0)
  }

  /** The branch table on the 2-bit texel value and the 2-bit block mode
      (palinfo >> 14); c0..c3 are the four palette entries from the block's base. */
  function CompressedColor(val: int, mode: int, c0: Rgb5, c1: Rgb5, c2: Rgb5, c3: Rgb5): (c: RGBA)
    ensures ValidColor(c)
    ensures c.a == 0.0 || c.a == 1.0
    ensures c.a == 0.0 <==> val != 0 && val != 1 && val != 2 && mode != 2 && mode != 3
    ensures c.a == 0.0 ==> c == Transparent
  {
    if val == 0 then PalColor(c0, 1.0)
    else if val == 1 then PalColor(c1, 1.0)
    else if val == 2 then
      if mode == 1 then Mid(c0, c1)
      else if mode == 3 then FiveThree(c0, c1)
      else PalColor(c2, 1.0)
    else
      if mode == 2 then PalColor(c3, 1.0)
      else if mode == 3 then ThreeFive(c0, c1)
      else Transparent
  }

  /** TextureFetch_Compressed. */
  function FetchCompressed(m: Vram, addr: VramAddr, st: TexCoord, wrapmode: int): (c: RGBA)
    requires ValidCoord(st)
    ensures ValidColor(c)
  {
    CompressedTexel(m, addr, WrapCoord(st, wrapmode))
  }

  /** The colour of an in-texture compressed texel. */
  function CompressedTexel(m: Vram, addr: VramAddr, w: TexCoord): (c: RGBA)
    requires ValidCoord(w) && InTexture(w)
    ensures ValidColor(c)
  {
    var a := addr.texel + CompressedByteOffset(w.s, w.t, w.width);
    var val := I2Index(TexByte(m, a), w.s);
    var palinfo := PalInfo(m, Slot1Addr(a));
    var base := addr.palette * 8 + (palinfo % 0x4000) * 2;
    CompressedColor(val, palinfo / 0x4000,
      PalEntry(m, base), PalEntry(m, base + 1), PalEntry(m, base + 2), PalEntry(m, base + 3))
  }
}
