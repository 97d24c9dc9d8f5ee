/** Texture-descriptor extraction from the polygon attribute word and the
    seven-way format dispatch every sample tap goes through. */
module Sampler {
  import opened Memory
  import opened Wrap
  import opened Texel

  /** The texel formats; type codes 1..6 select the first six, anything else
      (0 and 7) falls through to Direct. */
  datatype Format = A3I5 | I2 | I4 | I8 | Compressed | A5I3 | Direct

  /** The else-if chain on `type`: 5, 2, 3, 4, 1, 6, else Direct. Codes 1..6
      select the format whose code they are; every other code selects Direct. */
  function FormatOf(code: int): (f: Format)
    ensures 1 <= code <= 6 ==> FormatCode(f) == code
    ensures f == Direct <==> !(1 <= code <= 6)
  {
    if code == 5 then Compressed
    else if code == 2 then I2
    else if code == 3 then I4
    else if code == 4 then I8
    else if code == 1 then A3I5
    else if code == 6 then A5I3
    else Direct
  }

  /** The type code the hardware uses for each format (Direct is 7). */
  function FormatCode(f: Format): (code: int)
    ensures 1 <= code <= 7
  {
    match f
    case A3I5 => 1
    case I2 => 2
    case I4 => 3
    case I8 => 4
    case Compressed => 5
    case A5I3 => 6
    case Direct => 7
  }

  /** Everything the decoders need, from fPolygonAttr.y (attr) and fPolygonAttr.z (paladdr). */
  datatype TexParams = TexParams(format: Format, width: int, height: int, addr: VramAddr,
                                 wrapmode: int, alpha0: real)

  predicate ValidParams(p: TexParams)
  {
    ValidSize(p.width) && ValidSize(p.height) && Unit(p.alpha0)
  }

  /** (attr >> 26) & 7. */
  function TypeField(attr: int): (code: int)
    ensures 0 <= code < 8
  {
    (attr / 0x400_0000) % 8
  }

  /** alpha0 from bit 29, tw = 8 << ((attr >> 20) & 7), th = 8 << ((attr >> 23) & 7),
      texel base (attr & 0xFFFF) << 3, palette base paladdr, wrapmode attr >> 16,
      format from (attr >> 26) & 7. */
  function DecodeTexParams(attr: int, paladdr: int): (p: TexParams)
    ensures ValidParams(p)
  {
    TexParams(FormatOf(TypeField(attr)),
              TexSize((attr / 0x10_0000) % 8), TexSize((attr / 0x80_0000) % 8),
              VramAddr((attr % 0x1_0000) * 8, paladdr),
              attr / 0x1_0000,
              if (attr / 0x2000_0000) % 2 != 0 then 0.0 else 1.0)
  }

  /** One sample tap: the format's decoder at integer texel (s, t). */
  function FetchTexel(m: Vram, p: TexParams, s: int, t: int): (c: RGBA)
    requires ValidParams(p)
    ensures ValidColor(c)
  {
    var st := TexCoord(s, t, p.width, p.height);
    match p.format
    case Compressed => FetchCompressed(m, p.addr, st, p.wrapmode)
    case I2 => FetchI2(m, p.addr, st, p.wrapmode, p.alpha0)
    case I4 => FetchI4(m, p.addr, st, p.wrapmode, p.alpha0)
    case I8 => FetchI8(m, p.addr, st, p.wrapmode, p.alpha0)
    case A3I5 => FetchA3I5(m, p.addr, st, p.wrapmode)
    case A5I3 => FetchA5I3(m, p.addr, st, p.wrapmode)
    case Direct => FetchDirect(m, p.addr, st, p.wrapmode)
  }

  // ---------------------------------------------------------------------
  // Properties

  /** Each format's code selects it back, and codes 0 and 7 both mean Direct. */
  lemma FormatCodeRoundTrip(f: Format, code: int)
    ensures FormatOf(FormatCode(f)) == f
    ensures FormatOf(code) == Direct <==> !(1 <= code <= 6)
    ensures FormatOf(0) == Direct && FormatOf(7) == Direct
  {
  }

  /** The fields of a texture attribute word, as the hardware packs them. */
  datatype TexImageParam = TexImageParam(base: int, repeatS: bool, repeatT: bool, flipS: bool,
                                         flipT: bool, sizeS: int, sizeT: int, format: int,
                                         color0Transparent: bool)

  predicate ValidImageParam(f: TexImageParam)
  {
    0 <= f.base < 0x1_0000 && 0 <= f.sizeS < 8 && 0 <= f.sizeT < 8 && 0 <= f.format < 8
  }

  function B2I(b: bool): int { if b then 1 else 0 }

  /** The attribute word: base in bits 0-15, repeat S/T bits 16/17, flip S/T
      bits 18/19, sizes in bits 20-22 and 23-25, format in 26-28, bit 29 the
      colour-0-transparent flag. */
  function EncodeTexAttr(f: TexImageParam): (attr: int)
    requires ValidImageParam(f)
    ensures 0 <= attr < 0x4000_0000
  {
    f.base + 0x1_0000 * UpperFields(f)
  }

  /** bits 16 and up of the attribute word: wrap bits, sizes, format, transparency. */
  function UpperFields(f: TexImageParam): (u: int)
    requires ValidImageParam(f)
    ensures 0 <= u < 0x4000
  {
    B2I(f.repeatS) + 2 * B2I(f.repeatT) + 4 * B2I(f.flipS) + 8 * B2I(f.flipT)
    + 16 * f.sizeS + 128 * f.sizeT + 1024 * f.format + 8192 * B2I(f.color0Transparent)
  }

  /** Decoding an encoded attribute word gives every field back: the sizes as
      8 << field, the texel base scaled to bytes, the format, the alpha0 flag, and
      per-axis wrap modes in which x reads bits 16 and 18 and y bits 17 and 19. */
  lemma TexAttrRoundTrip(f: TexImageParam, paladdr: int)
    requires ValidImageParam(f)
    ensures var p := DecodeTexParams(EncodeTexAttr(f), paladdr);
            && p.width == TexSize(f.sizeS) && p.height == TexSize(f.sizeT)
            && p.addr == VramAddr(f.base * 8, paladdr)
            && p.format == FormatOf(f.format)
            && (p.alpha0 == 0.0 <==> f.color0Transparent)
            && (Repeats(p.wrapmode) <==> f.repeatS)
            && (Bit(p.wrapmode, 2) == 1 <==> f.flipS)
            && (Repeats(p.wrapmode / 2) <==> f.repeatT)
            && (Bit(p.wrapmode / 2, 2) == 1 <==> f.flipT)
  {
    var attr, u := EncodeTexAttr(f), UpperFields(f);
    DivModUnique(attr, 0x1_0000, u, f.base);
    DivDiv(attr, 0x1_0000, 16);
    DivDiv(attr, 0x1_0000, 128);
    DivDiv(attr, 0x1_0000, 1024);
    DivDiv(attr, 0x1_0000, 8192);
    UpperFieldsSplit(f);
    WrapBitsSplit(f);
  }

  /** Bits 30 and 31 of the attribute word are read by nothing but the wrap
      mode, whose decoders look only at its low bits: adding any multiple of
      2^30 (a negative word included) leaves every other field as it was. */
  lemma TopBitsIgnored(attr: int, top: int, paladdr: int)
    ensures var p, p' := DecodeTexParams(attr, paladdr), DecodeTexParams(attr + 0x4000_0000 * top, paladdr);
            && p'.width == p.width && p'.height == p.height && p'.addr == p.addr
            && p'.format == p.format && p'.alpha0 == p.alpha0
            && p'.wrapmode == p.wrapmode + 0x4000 * top
  {
    ShiftByMultiple(attr, 0x1_0000, 0x4000 * top);
    ShiftByMultiple(attr, 0x10_0000, 0x400 * top);
    ShiftByMultiple(attr / 0x10_0000, 8, 0x80 * top);
    ShiftByMultiple(attr, 0x80_0000, 0x80 * top);
    ShiftByMultiple(attr / 0x80_0000, 8, 0x10 * top);
    ShiftByMultiple(attr, 0x400_0000, 0x10 * top);
    ShiftByMultiple(attr / 0x400_0000, 8, 2 * top);
    ShiftByMultiple(attr, 0x2000_0000, 2 * top);
    ShiftByMultiple(attr / 0x2000_0000, 2, top);
  }

  /** The four wrap bits the decoders read (bits 0 and 2 of the mode for x, of
      the mode >> 1 for y) are unchanged by the multiple of 0x4000 that bits 30
      and 31 of the attribute word add to the mode. */
  lemma WrapBitsIgnoreTop(w: int, top: int)
    ensures var w' := w + 0x4000 * top;
            && Bit(w', 0) == Bit(w, 0) && Bit(w', 2) == Bit(w, 2)
            && Bit(w' / 2, 0) == Bit(w / 2, 0) && Bit(w' / 2, 2) == Bit(w / 2, 2)
  {
    BitIgnoresHigh(w, 2 * top, 0);
    BitIgnoresHigh(w, 2 * top, 2);
    ShiftByMultiple(w, 2, 0x2000 * top);
    BitIgnoresHigh(w / 2, top, 0);
    BitIgnoresHigh(w / 2, top, 2);
  }

  /** Bits 0 to 3 of x are unchanged by adding a multiple of 0x2000. */
  lemma BitIgnoresHigh(x: int, m: int, k: nat)
    requires k <= 3
    ensures Bit(x + 0x2000 * m, k) == Bit(x, k)
  {
    var d := Pow2(k);
    assert d == 1 || d == 2 || d == 4 || d == 8 by {
      if k > 0 { assert Pow2(k) == 2 * Pow2(k - 1); }
    }
    var e := 0x1000 / d;
    assert 0x2000 * m == (2 * e * m) * d;
    ShiftByMultiple(x, d, 2 * e * m);
    ShiftByMultiple(x / d, 2, e * m);
  }

  /** The size, format and transparency fields of the upper half-word. */
  lemma UpperFieldsSplit(f: TexImageParam)
    requires ValidImageParam(f)
    ensures var u := UpperFields(f);
            (u / 16) % 8 == f.sizeS && (u / 128) % 8 == f.sizeT && (u / 1024) % 8 == f.format
            && (u / 8192) % 2 == B2I(f.color0Transparent)
  {
    var u := UpperFields(f);
    var w := B2I(f.repeatS) + 2 * B2I(f.repeatT) + 4 * B2I(f.flipS) + 8 * B2I(f.flipT);
    var c := B2I(f.color0Transparent);
    DivModUnique(u, 16, f.sizeS + 8 * f.sizeT + 64 * f.format + 512 * c, w);
    DivModUnique(f.sizeS + 8 * f.sizeT + 64 * f.format + 512 * c, 8, f.sizeT + 8 * f.format + 64 * c, f.sizeS);
    DivModUnique(u, 128, f.sizeT + 8 * f.format + 64 * c, w + 16 * f.sizeS);
    DivModUnique(f.sizeT + 8 * f.format + 64 * c, 8, f.format + 8 * c, f.sizeT);
    DivModUnique(u, 1024, f.format + 8 * c, w + 16 * f.sizeS + 128 * f.sizeT);
    DivModUnique(f.format + 8 * c, 8, c, f.format);
    DivModUnique(u, 8192, c, w + 16 * f.sizeS + 128 * f.sizeT + 1024 * f.format);
  }

  /** The four wrap bits at the bottom of the upper half-word, read as the
      decoders read them: x through mode u, y through mode u >> 1. */
  lemma WrapBitsSplit(f: TexImageParam)
    requires ValidImageParam(f)
    ensures var u := UpperFields(f);
            && (Bit(u, 0) == 1 <==> f.repeatS) && (Bit(u, 2) == 1 <==> f.flipS)
            && (Bit(u / 2, 0) == 1 <==> f.repeatT) && (Bit(u / 2, 2) == 1 <==> f.flipT)
  {
    var rest := f.sizeS + 8 * f.sizeT + 64 * f.format + 512 * B2I(f.color0Transparent);
    FourLowBits(B2I(f.repeatS), B2I(f.repeatT), B2I(f.flipS), B2I(f.flipT), rest);
  }

  /** Bits 0 to 3 of rs + 2 rt + 4 fs + 8 ft + 16 rest, read as the wrap bits are. */
  lemma FourLowBits(rs: int, rt: int, fs: int, ft: int, rest: int)
    requires 0 <= rs < 2 && 0 <= rt < 2 && 0 <= fs < 2 && 0 <= ft < 2
    ensures var u := rs + 2 * rt + 4 * fs + 8 * ft + 16 * rest;
            Bit(u, 0) == rs && Bit(u, 2) == fs && Bit(u / 2, 0) == rt && Bit(u / 2, 2) == ft
  {
    var u := rs + 2 * rt + 4 * fs + 8 * ft + 16 * rest;
    assert Pow2(2) == 4;
    DivModUnique(u, 2, rt + 2 * fs + 4 * ft + 8 * rest, rs);
    DivModUnique(u, 4, fs + 2 * ft + 4 * rest, rs + 2 * rt);
    DivModUnique(fs + 2 * ft + 4 * rest, 2, ft + 2 * rest, fs);
    DivModUnique(rt + 2 * fs + 4 * ft + 8 * rest, 2, fs + 2 * ft + 4 * rest, rt);
    DivModUnique(rt + 2 * fs + 4 * ft + 8 * rest, 4, ft + 2 * rest, rt + 2 * fs);
    DivModUnique(ft + 2 * rest, 2, rest, ft);
  }

  /** A tap depends on its coordinate only through the wrapped coordinate:
      every format goes through the same TexcoordWrap. */
  lemma FetchTexelWrapped(m: Vram, p: TexParams, s: int, t: int, s': int, t': int)
    requires ValidParams(p)
    requires TexcoordWrap(s, p.width, p.wrapmode) == TexcoordWrap(s', p.width, p.wrapmode)
    requires TexcoordWrap(t, p.height, p.wrapmode / 2) == TexcoordWrap(t', p.height, p.wrapmode / 2)
    ensures FetchTexel(m, p, s, t) == FetchTexel(m, p, s', t')
  {
    var st, st' := TexCoord(s, t, p.width, p.height), TexCoord(s', t', p.width, p.height);
    assert WrapCoord(st, p.wrapmode) == WrapCoord(st', p.wrapmode);
    match p.format
    case A3I5 => A3I5Wrapped(m, p, st, st');
    case I2 => I2Wrapped(m, p, st, st');
    case I4 => I4Wrapped(m, p, st, st');
    case I8 => I8Wrapped(m, p, st, st');
    case Compressed => CompressedWrapped(m, p, st, st');
    case A5I3 => A5I3Wrapped(m, p, st, st');
    case Direct => DirectWrapped(m, p, st, st');
  }

  lemma A3I5Wrapped(m: Vram, p: TexParams, st: TexCoord, st': TexCoord)
    requires ValidParams(p) && p.format.A3I5?
    requires st.width == st'.width == p.width && st.height == st'.height == p.height
    requires WrapCoord(st, p.wrapmode) == WrapCoord(st', p.wrapmode)
    ensures FetchTexel(m, p, st.s, st.t) == FetchTexel(m, p, st'.s, st'.t)
  {
    assert st == TexCoord(st.s, st.t, p.width, p.height);
    assert st' == TexCoord(st'.s, st'.t, p.width, p.height);
    assert FetchA3I5(m, p.addr, st, p.wrapmode) == FetchA3I5(m, p.addr, st', p.wrapmode);
  }

  lemma I2Wrapped(m: Vram, p: TexParams, st: TexCoord, st': TexCoord)
    requires ValidParams(p) && p.format.I2?
    requires st.width == st'.width == p.width && st.height == st'.height == p.height
    requires WrapCoord(st, p.wrapmode) == WrapCoord(st', p.wrapmode)
    ensures FetchTexel(m, p, st.s, st.t) == FetchTexel(m, p, st'.s, st'.t)
  {
    assert st == TexCoord(st.s, st.t, p.width, p.height);
    assert st' == TexCoord(st'.s, st'.t, p.width, p.height);
    assert FetchI2(m, p.addr, st, p.wrapmode, p.alpha0) == FetchI2(m, p.addr, st', p.wrapmode, p.alpha0);
  }

  lemma I4Wrapped(m: Vram, p: TexParams, st: TexCoord, st': TexCoord)
    requires ValidParams(p) && p.format.I4?
    requires st.width == st'.width == p.width && st.height == st'.height == p.height
    requires WrapCoord(st, p.wrapmode) == WrapCoord(st', p.wrapmode)
    ensures FetchTexel(m, p, st.s, st.t) == FetchTexel(m, p, st'.s, st'.t)
  {
    assert st == TexCoord(st.s, st.t, p.width, p.height);
    assert st' == TexCoord(st'.s, st'.t, p.width, p.height);
    assert FetchI4(m, p.addr, st, p.wrapmode, p.alpha0) == FetchI4(m, p.addr, st', p.wrapmode, p.alpha0);
  }

  lemma I8Wrapped(m: Vram, p: TexParams, st: TexCoord, st': TexCoord)
    requires ValidParams(p) && p.format.I8?
    requires st.width == st'.width == p.width && st.height == st'.height == p.height
    requires WrapCoord(st, p.wrapmode) == WrapCoord(st', p.wrapmode)
    ensures FetchTexel(m, p, st.s, st.t) == FetchTexel(m, p, st'.s, st'.t)
  {
    assert st == TexCoord(st.s, st.t, p.width, p.height);
    assert st' == TexCoord(st'.s, st'.t, p.width, p.height);
    assert FetchI8(m, p.addr, st, p.wrapmode, p.alpha0) == FetchI8(m, p.addr, st', p.wrapmode, p.alpha0);
  }

  lemma CompressedWrapped(m: Vram, p: TexParams, st: TexCoord, st': TexCoord)
    requires ValidParams(p) && p.format.Compressed?
    requires st.width == st'.width == p.width && st.height == st'.height == p.height
    requires WrapCoord(st, p.wrapmode) == WrapCoord(st', p.wrapmode)
    ensures FetchTexel(m, p, st.s, st.t) == FetchTexel(m, p, st'.s, st'.t)
  {
    assert st == TexCoord(st.s, st.t, p.width, p.height);
    assert st' == TexCoord(st'.s, st'.t, p.width, p.height);
    assert FetchCompressed(m, p.addr, st, p.wrapmode) == FetchCompressed(m, p.addr, st', p.wrapmode);
  }

  lemma A5I3Wrapped(m: Vram, p: TexParams, st: TexCoord, st': TexCoord)
    requires ValidParams(p) && p.format.A5I3?
    requires st.width == st'.width == p.width && st.height == st'.height == p.height
    requires WrapCoord(st, p.wrapmode) == WrapCoord(st', p.wrapmode)
    ensures FetchTexel(m, p, st.s, st.t) == FetchTexel(m, p, st'.s, st'.t)
  {
    assert st == TexCoord(st.s, st.t, p.width, p.height);
    assert st' == TexCoord(st'.s, st'.t, p.width, p.height);
    assert FetchA5I3(m, p.addr, st, p.wrapmode) == FetchA5I3(m, p.addr, st', p.wrapmode);
  }

  lemma DirectWrapped(m: Vram, p: TexParams, st: TexCoord, st': TexCoord)
    requires ValidParams(p) && p.format.Direct?
    requires st.width == st'.width == p.width && st.height == st'.height == p.height
    requires WrapCoord(st, p.wrapmode) == WrapCoord(st', p.wrapmode)
    ensures FetchTexel(m, p, st.s, st.t) == FetchTexel(m, p, st'.s, st'.t)
  {
    assert st == TexCoord(st.s, st.t, p.width, p.height);
    assert st' == TexCoord(st'.s, st'.t, p.width, p.height);
    assert FetchDirect(m, p.addr, st, p.wrapmode) == FetchDirect(m, p.addr, st', p.wrapmode);
  }

  /** Hence, with x in plain repeat, every format's tap repeats every `width` texels,
      and with x in mirrored repeat, taps at s and -1-s agree. */
  lemma FetchTexelRepeats(m: Vram, p: TexParams, s: int, t: int)
    requires ValidParams(p)
    ensures Repeats(p.wrapmode) && !Mirrors(p.wrapmode) ==>
              FetchTexel(m, p, s + p.width, t) == FetchTexel(m, p, s, t)
    ensures Mirrors(p.wrapmode) ==> FetchTexel(m, p, -1 - s, t) == FetchTexel(m, p, s, t)
  {
    if Repeats(p.wrapmode) && !Mirrors(p.wrapmode) {
      WrapRepeatPeriodic(s, p.width, p.wrapmode);
      FetchTexelWrapped(m, p, s + p.width, t, s, t);
    }
    if Mirrors(p.wrapmode) {
      WrapMirrorReflects(s, p.width, p.wrapmode);
      FetchTexelWrapped(m, p, -1 - s, t, s, t);
    }
  }

  /** For I2, I4 and I8 a texel is transparent exactly when its index is 0 and
      attribute bit 29 (colour 0 transparent) is set. */
  lemma IndexAlphaTransparent(index: int, attr: int, paladdr: int)
    requires index >= 0
    ensures var a := IndexAlpha(index, DecodeTexParams(attr, paladdr).alpha0);
            (a == 0.0 <==> index == 0 && (attr / 0x2000_0000) % 2 == 1) && (a != 0.0 ==> a == 1.0)
  {
  }
}
