/** FinalColor: merges the interpolated vertex colour with the sampled texel
    according to the polygon's blend mode (modulate, decal, toon/highlight,
    shadow), then stores the channels in .bgra order. */
module Compositor {
  import opened Memory
  import Sampler

  /** The render configuration block the compositor reads: the display-control
      word uDispCnt and the 32 toon colours. */
  datatype ToonConfig = ToonConfig(dispCnt: int, toonColors: seq<RGBA>)

  predicate ValidToon(cfg: ToonConfig)
  {
    |cfg.toonColors| == 32
  }

  /** All 32 toon colours are normalised colours. */
  predicate NormalToon(cfg: ToonConfig)
  {
    ValidToon(cfg) && forall i :: 0 <= i < 32 ==> ValidColor(cfg.toonColors[i])
  }

  /** (fPolygonAttr.x >> 4) & 0x3: 0 modulate, 1 decal, 2 toon/highlight, 3 shadow. */
  function BlendMode(attrX: int): (mode: int)
    ensures 0 <= mode < 4
  {
    (attrX / 16) % 4
  }

  /** Bit 0 of uDispCnt enables texturing; bit 1 selects highlight over toon. */
  predicate TexturingEnabled(dispCnt: int) { Bit(dispCnt, 0) != 0 }
  predicate HighlightMode(dispCnt: int) { Bit(dispCnt, 1) != 0 }

  /** The polygon samples a texture: format field (attr >> 26) & 7 is non-zero
      and texturing is enabled. */
  predicate Textured(dispCnt: int, attrY: int)
  {
    Sampler.TypeField(attrY) != 0 && TexturingEnabled(dispCnt)
  }

  /** int(r * 31) for a channel in [0, 1]: the toon-table index. */
  function ToonIndex(r: real): (i: int)
    requires Unit(r)
    ensures 0 <= i < 32
    ensures i as real <= r * 31.0 < i as real + 1.0
  {
    (r * 31.0).Floor
  }

  /** Decal: texel over vertex colour by texel alpha; alpha from the vertex.
      A transparent texel leaves the vertex colour, an opaque one replaces it. */
  function Decal(t: RGBA, v: RGBA): (d: RGBA)
    ensures d.a == v.a
    ensures t.a == 0.0 ==> d == v
    ensures t.a == 1.0 ==> d == RGBA(t.r, t.g, t.b, v.a)
  {
    RGBA(t.r * t.a + v.r * (1.0 - t.a), t.g * t.a + v.g * (1.0 - t.a),
         t.b * t.a + v.b * (1.0 - t.a), v.a)
  }

  /** Modulate: channel-wise product, alpha included. An opaque white texel
      leaves the vertex colour unchanged, a transparent one gives alpha 0. */
  function Modulate(v: RGBA, t: RGBA): (p: RGBA)
    ensures t == RGBA(1.0, 1.0, 1.0, 1.0) ==> p == v
    ensures t.a == 0.0 ==> p.a == 0.0
  {
    RGBA(v.r * t.r, v.g * t.g, v.b * t.b, v.a * t.a)
  }

  function Min1(x: real): real { if x < 1.0 then x else 1.0 }

  /** Highlight: add the toon colour to rgb, each channel clamped to 1. A
      channel whose sum stays within 1 is the plain sum, one whose sum reaches
      1 is exactly 1; alpha is kept. */
  function Highlight(c: RGBA, toon: RGBA): (h: RGBA)
    ensures h.r <= 1.0 && h.g <= 1.0 && h.b <= 1.0 && h.a == c.a
    ensures c.r + toon.r <= 1.0 ==> h.r == c.r + toon.r
    ensures c.g + toon.g <= 1.0 ==> h.g == c.g + toon.g
    ensures c.b + toon.b <= 1.0 ==> h.b == c.b + toon.b
    ensures c.r + toon.r >= 1.0 ==> h.r == 1.0
    ensures c.g + toon.g >= 1.0 ==> h.g == 1.0
    ensures c.b + toon.b >= 1.0 ==> h.b == 1.0
  {
    RGBA(Min1(c.r + toon.r), Min1(c.g + toon.g), Min1(c.b + toon.b), c.a)
  }

  /** The .bgra swizzle. */
  function Bgra(c: RGBA): RGBA
  {
    RGBA(c.b, c.g, c.r, c.a)
  }

  /** The vertex colour after toon / highlight substitution (blend mode 2):
      toon replaces rgb by the toon colour at int(r * 31), highlight by r, r, r. */
  function ShadedVertex(cfg: ToonConfig, vcol: RGBA, blend: int): (v: RGBA)
    requires ValidToon(cfg) && Unit(vcol.r)
    ensures v.r == vcol.r || (blend == 2 && !HighlightMode(cfg.dispCnt))
    ensures v.a == vcol.a
    ensures blend != 2 ==> v == vcol
    ensures blend == 2 && HighlightMode(cfg.dispCnt) ==> v == RGBA(vcol.r, vcol.r, vcol.r, vcol.a)
    ensures blend == 2 && !HighlightMode(cfg.dispCnt) ==>
              var t := cfg.toonColors[ToonIndex(vcol.r)]; v == RGBA(t.r, t.g, t.b, vcol.a)
  {
    if blend == 2 then
      if !HighlightMode(cfg.dispCnt) then
        var toon := cfg.toonColors[ToonIndex(vcol.r)];
        RGBA(toon.r, toon.g, toon.b, vcol.a)
      else
        RGBA(vcol.r, vcol.r, vcol.r, vcol.a)
    else vcol
  }

  /** The textured step: no texture keeps the vertex colour, an odd blend mode
      applies decal, an even one modulate. */
  function TexBlend(v: RGBA, tcol: RGBA, blend: int, textured: bool): (c: RGBA)
    ensures !textured ==> c == v
    ensures c.a == (if textured && blend % 2 == 0 then v.a * tcol.a else v.a)
  {
    if !textured then v
    else if blend % 2 != 0 then Decal(tcol, v)
    else Modulate(v, tcol)
  }

  /** FinalColor(): tcol is the texel TextureLookup_Nearest returned for this fragment. */
  function FinalColor(cfg: ToonConfig, vcol: RGBA, attrX: int, attrY: int, tcol: RGBA): (c: RGBA)
    requires ValidToon(cfg) && Unit(vcol.r)
    ensures c.a == (if Textured(cfg.dispCnt, attrY) && BlendMode(attrX) % 2 == 0
                    then vcol.a * tcol.a else vcol.a)
  {
    var blend := BlendMode(attrX);
    var v := ShadedVertex(cfg, vcol, blend);
    var col := TexBlend(v, tcol, blend, Textured(cfg.dispCnt, attrY));
    var col' :=
      if blend == 2 && HighlightMode(cfg.dispCnt) then Highlight(col, cfg.toonColors[ToonIndex(v.r)])
      else col;
    Bgra(col')
  }

  // ---------------------------------------------------------------------
  // Properties

  /** The swizzle exchanges red and blue and is its own inverse. */
  lemma BgraInvolution(c: RGBA)
    ensures Bgra(Bgra(c)) == c
    ensures Bgra(c).r == c.b && Bgra(c).b == c.r && Bgra(c).g == c.g && Bgra(c).a == c.a
  {
  }

  /** Without a texture, modes 0, 1 and 3 pass the vertex colour through
      (swizzled), whatever the texel. */
  lemma NoTexturePassThrough(cfg: ToonConfig, vcol: RGBA, attrX: int, attrY: int, tcol: RGBA)
    requires ValidToon(cfg) && Unit(vcol.r)
    requires !Textured(cfg.dispCnt, attrY) && BlendMode(attrX) != 2
    ensures FinalColor(cfg, vcol, attrX, attrY, tcol) == Bgra(vcol)
  {
  }

  /** Decal (modes 1 and 3) with a fully transparent texel returns the vertex
      colour and the vertex alpha. */
  lemma DecalTransparentTexel(cfg: ToonConfig, vcol: RGBA, attrX: int, attrY: int, tcol: RGBA)
    requires ValidToon(cfg) && Unit(vcol.r)
    requires Textured(cfg.dispCnt, attrY) && BlendMode(attrX) % 2 == 1 && tcol.a == 0.0
    ensures FinalColor(cfg, vcol, attrX, attrY, tcol) == Bgra(vcol)
  {
  }

  /** Decal with an opaque texel shows the texel's colour with the vertex alpha. */
  lemma DecalOpaqueTexel(cfg: ToonConfig, vcol: RGBA, attrX: int, attrY: int, tcol: RGBA)
    requires ValidToon(cfg) && Unit(vcol.r)
    requires Textured(cfg.dispCnt, attrY) && BlendMode(attrX) % 2 == 1 && tcol.a == 1.0
    ensures FinalColor(cfg, vcol, attrX, attrY, tcol) == Bgra(RGBA(tcol.r, tcol.g, tcol.b, vcol.a))
  {
  }

  /** Modulate with an opaque white texel returns the vertex colour unchanged. */
  lemma ModulateWhite(cfg: ToonConfig, vcol: RGBA, attrX: int, attrY: int)
    requires ValidToon(cfg) && Unit(vcol.r)
    requires Textured(cfg.dispCnt, attrY) && BlendMode(attrX) == 0
    ensures FinalColor(cfg, vcol, attrX, attrY, RGBA(1.0, 1.0, 1.0, 1.0)) == Bgra(vcol)
  {
  }

  /** Blend mode 3 (shadow) composes exactly like decal: only the low bit of
      the mode is consulted. */
  lemma ShadowComposesAsDecal(cfg: ToonConfig, vcol: RGBA, attrX: int, attrY: int, tcol: RGBA)
    requires ValidToon(cfg) && Unit(vcol.r) && BlendMode(attrX) == 3
    ensures FinalColor(cfg, vcol, attrX, attrY, tcol) == FinalColor(cfg, vcol, attrX - 32, attrY, tcol)
    ensures BlendMode(attrX - 32) == 1
  {
    ShiftByMultiple(attrX, 16, -2);
    ShiftByMultiple(attrX / 16, 4, 0);
    assert (attrX / 16 - 2) % 4 == 1;
  }

  /** Toon mode without a texture replaces the colour by the toon-table entry
      at int(r * 31), keeping the vertex alpha. */
  lemma ToonUntextured(cfg: ToonConfig, vcol: RGBA, attrX: int, attrY: int, tcol: RGBA)
    requires ValidToon(cfg) && Unit(vcol.r)
    requires !Textured(cfg.dispCnt, attrY) && BlendMode(attrX) == 2 && !HighlightMode(cfg.dispCnt)
    ensures var toon := cfg.toonColors[ToonIndex(vcol.r)];
            FinalColor(cfg, vcol, attrX, attrY, tcol) == RGBA(toon.b, toon.g, toon.r, vcol.a)
  {
  }

  /** Untextured highlight: the grey r, r, r plus the toon colour at
      int(r * 31), clamped to 1, with the vertex alpha, swizzled. */
  lemma HighlightUntextured(cfg: ToonConfig, vcol: RGBA, attrX: int, attrY: int, tcol: RGBA)
    requires ValidToon(cfg) && Unit(vcol.r)
    requires !Textured(cfg.dispCnt, attrY) && BlendMode(attrX) == 2 && HighlightMode(cfg.dispCnt)
    ensures var t := cfg.toonColors[ToonIndex(vcol.r)];
            FinalColor(cfg, vcol, attrX, attrY, tcol) ==
              RGBA(Min1(vcol.r + t.b), Min1(vcol.r + t.g), Min1(vcol.r + t.r), vcol.a)
  {
  }

  /** Textured highlight: the grey r, r, r modulated by the texel, plus the
      toon colour at int(r * 31), clamped to 1; alpha is the product of the
      vertex and texel alphas; swizzled. */
  lemma HighlightTextured(cfg: ToonConfig, vcol: RGBA, attrX: int, attrY: int, tcol: RGBA)
    requires ValidToon(cfg) && Unit(vcol.r)
    requires Textured(cfg.dispCnt, attrY) && BlendMode(attrX) == 2 && HighlightMode(cfg.dispCnt)
    ensures var t := cfg.toonColors[ToonIndex(vcol.r)];
            FinalColor(cfg, vcol, attrX, attrY, tcol) ==
              RGBA(Min1(vcol.r * tcol.b + t.b), Min1(vcol.r * tcol.g + t.g),
                   Min1(vcol.r * tcol.r + t.r), vcol.a * tcol.a)
  {
  }

  /** Highlight output colour channels never exceed 1, whatever the inputs. */
  lemma HighlightBounded(cfg: ToonConfig, vcol: RGBA, attrX: int, attrY: int, tcol: RGBA)
    requires ValidToon(cfg) && Unit(vcol.r)
    requires BlendMode(attrX) == 2 && HighlightMode(cfg.dispCnt)
    ensures var c := FinalColor(cfg, vcol, attrX, attrY, tcol);
            c.r <= 1.0 && c.g <= 1.0 && c.b <= 1.0
  {
  }

  /** With normalised inputs, every blend mode yields a normalised colour. */
  lemma FinalColorNormalised(cfg: ToonConfig, vcol: RGBA, attrX: int, attrY: int, tcol: RGBA)
    requires NormalToon(cfg) && ValidColor(vcol) && ValidColor(tcol)
    ensures ValidColor(FinalColor(cfg, vcol, attrX, attrY, tcol))
  {
    var blend := BlendMode(attrX);
    var v := ShadedVertex(cfg, vcol, blend);
    assert ValidColor(cfg.toonColors[ToonIndex(vcol.r)]);
    assert ValidColor(v);
    var col := TexBlend(v, tcol, blend, Textured(cfg.dispCnt, attrY));
    TexBlendNormalised(v, tcol, blend, Textured(cfg.dispCnt, attrY));
    assert ValidColor(cfg.toonColors[ToonIndex(v.r)]);
  }

  lemma TexBlendNormalised(v: RGBA, tcol: RGBA, blend: int, textured: bool)
    requires ValidColor(v) && ValidColor(tcol)
    ensures ValidColor(TexBlend(v, tcol, blend, textured))
  {
    if textured {
      if blend % 2 != 0 {
        ConvexUnit(tcol.r, v.r, tcol.a);
        ConvexUnit(tcol.g, v.g, tcol.a);
        ConvexUnit(tcol.b, v.b, tcol.a);
      } else {
        ProductUnit(v.r, tcol.r);
        ProductUnit(v.g, tcol.g);
        ProductUnit(v.b, tcol.b);
        ProductUnit(v.a, tcol.a);
      }
    }
  }

  /** A convex combination of two values in [0, 1] stays in [0, 1]. */
  lemma ConvexUnit(x: real, y: real, t: real)
    requires Unit(x) && Unit(y) && Unit(t)
    ensures Unit(x * t + y * (1.0 - t))
  {
    ProductUnit(x, t);
    ProductUnit(y, 1.0 - t);
    ProductUnit(1.0 - x, t);
    ProductUnit(1.0 - y, 1.0 - t);
  }

  lemma ProductUnit(x: real, y: real)
    requires Unit(x) && Unit(y)
    ensures Unit(x * y) && x * y <= y
  {
    assert (1.0 - x) * y >= 0.0;
  }
}
