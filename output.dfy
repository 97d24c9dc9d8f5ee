/** The fragment shaders' main functions: per-variant alpha discard, colour
    and attribute-buffer writes, and the explicit depth of the W variants. */
module OutputStage {
  import opened Memory
  import opened Compositor

  datatype Option<T> = None | Some(value: T)

  /** kRenderFS_ZO/WO (opaque), ZT/WT (translucent), ZSM/WSM (shadow mask);
      Z variants leave depth to the rasteriser, W variants write fZ. */
  datatype Variant = ZO | WO | ZT | WT | ZSM | WSM

  predicate WritesDepth(v: Variant) { v.WO? || v.WT? || v.WSM? }

  /** The oAttr channels a variant writes: r the polygon id / 63 (opaque
      variants only), b the fog flag, a = 1. Channel g is never written. */
  datatype AttrOut = AttrOut(polyId: Option<real>, fog: real, a: real)

  /** A discarded fragment, or what it writes: oColor, oAttr if written, gl_FragDepth if written. */
  datatype FragOut = Discard | Write(color: RGBA, attr: Option<AttrOut>, depth: Option<real>)

  /** Opaque variants discard when col.a < 30.5/31: full alpha is kept, and
      anything kept is above 30/31. */
  predicate OpaqueKeeps(alpha: real)
    ensures alpha >= 1.0 ==> OpaqueKeeps(alpha)
    ensures OpaqueKeeps(alpha) ==> alpha > 30.0 / 31.0
  {
    !(alpha < 30.5 / 31.0)
  }

  /** Translucent variants discard when col.a < 0.5/31 and when col.a >= 30.5/31:
      what they keep is strictly between transparent and opaque, and is never
      kept by the opaque variants. */
  predicate TranslucentKeeps(alpha: real)
    ensures TranslucentKeeps(alpha) ==> 0.0 < alpha < 1.0
    ensures TranslucentKeeps(alpha) ==> !OpaqueKeeps(alpha)
  {
    !(alpha < 0.5 / 31.0) && !(alpha >= 30.5 / 31.0)
  }

  /** (fPolygonAttr.x >> 24) & 0x3F. */
  function PolyId(attrX: int): (id: int)
    ensures 0 <= id <= 63
  {
    (attrX / 0x100_0000) % 64
  }

  /** (fPolygonAttr.x >> 15) & 0x1. */
  function FogFlag(attrX: int): (f: int)
    ensures f == 0 || f == 1
  {
    (attrX / 0x8000) % 2
  }

  /** One fragment of a variant, given the FinalColor() result col (which the
      shadow-mask variants never compute) and the interpolated depth fZ. */
  function ShadeFragment(v: Variant, col: RGBA, attrX: int, fZ: real): (out: FragOut)
    ensures out.Write? && WritesDepth(v) ==> out.depth == Some(fZ)
    ensures out.Write? && !WritesDepth(v) ==> out.depth == None
  {
    var depth := if WritesDepth(v) then Some(fZ) else None;
    match v
    case ZO | WO =>
      if !OpaqueKeeps(col.a) then Discard
      else Write(col, Some(AttrOut(Some(PolyId(attrX) as real / 63.0), FogFlag(attrX) as real, 1.0)), depth)
    case ZT | WT =>
      if !TranslucentKeeps(col.a) then Discard
      else Write(col, Some(AttrOut(None, 0.0, 1.0)), depth)
    case ZSM | WSM =>
      Write(RGBA(0.0, 0.0, 0.0, 1.0), None, depth)
  }

  /** The whole fragment shader: FinalColor() followed by the variant's main. */
  function RenderFragment(v: Variant, cfg: ToonConfig, vcol: RGBA, attrX: int, attrY: int,
                          tcol: RGBA, fZ: real): (out: FragOut)
    requires ValidToon(cfg) && Unit(vcol.r)
    ensures (v.ZSM? || v.WSM?) ==> out.Write? && out.color == RGBA(0.0, 0.0, 0.0, 1.0)
    ensures !(v.ZSM? || v.WSM?) && out.Write? ==> out.color == FinalColor(cfg, vcol, attrX, attrY, tcol)
  {
    if v.ZSM? || v.WSM? then ShadeFragment(v, RGBA(0.0, 0.0, 0.0, 1.0), attrX, fZ)
    else ShadeFragment(v, FinalColor(cfg, vcol, attrX, attrY, tcol), attrX, fZ)
  }

  // ---------------------------------------------------------------------
  // Properties

  /** No alpha passes both the opaque and the translucent test. */
  lemma PassesDisjoint(alpha: real)
    ensures !(OpaqueKeeps(alpha) && TranslucentKeeps(alpha))
  {
  }

  /** On the 5-bit alpha grid k/31, the opaque pass keeps only k = 31 and the
      translucent pass exactly 1..30; k = 0 is drawn by neither. */
  lemma AlphaGrid(k: int)
    requires 0 <= k <= 31
    ensures OpaqueKeeps(k as real / 31.0) <==> k == 31
    ensures TranslucentKeeps(k as real / 31.0) <==> 1 <= k <= 30
  {
  }

  /** Alpha 1 is kept and alpha 30/31 discarded by the opaque pass: the
      boundary at 30.5/31 is exclusive. */
  lemma OpaqueBoundary()
    ensures OpaqueKeeps(1.0) && !OpaqueKeeps(30.0 / 31.0)
  {
  }

  /** What each variant writes: opaque variants keep a fragment exactly when
      its alpha passes the opaque test and then record the polygon id in
      [0, 1] and the fog flag; translucent variants record fog 0 and no id;
      shadow-mask variants always write opaque black and no attributes. */
  lemma ShadeFragmentOutputs(v: Variant, col: RGBA, attrX: int, fZ: real)
    ensures var out := ShadeFragment(v, col, attrX, fZ);
            && ((v.ZO? || v.WO?) ==> (out.Write? <==> OpaqueKeeps(col.a)))
            && ((v.ZT? || v.WT?) ==> (out.Write? <==> TranslucentKeeps(col.a)))
            && ((v.ZSM? || v.WSM?) ==> out == Write(RGBA(0.0, 0.0, 0.0, 1.0), None, out.depth))
            && (out.Write? && (v.ZO? || v.WO?) ==>
                  out.color == col
                  && out.attr == Some(AttrOut(Some(PolyId(attrX) as real / 63.0), FogFlag(attrX) as real, 1.0))
                  && Unit(out.attr.value.polyId.value) && Unit(out.attr.value.fog))
            && (out.Write? && (v.ZT? || v.WT?) ==>
                  out.color == col && out.attr == Some(AttrOut(None, 0.0, 1.0)))
  {
  }

  /** End to end: for the same fragment inputs, the opaque and the translucent
      variant of either depth mode never both draw it. */
  lemma OpaqueTranslucentExclusive(cfg: ToonConfig, vcol: RGBA, attrX: int, attrY: int,
                                   tcol: RGBA, fZ: real, o: Variant, t: Variant)
    requires ValidToon(cfg) && Unit(vcol.r)
    requires (o.ZO? || o.WO?) && (t.ZT? || t.WT?)
    ensures !(RenderFragment(o, cfg, vcol, attrX, attrY, tcol, fZ).Write?
              && RenderFragment(t, cfg, vcol, attrX, attrY, tcol, fZ).Write?)
  {
    var col := FinalColor(cfg, vcol, attrX, attrY, tcol);
    ShadeFragmentOutputs(o, col, attrX, fZ);
    ShadeFragmentOutputs(t, col, attrX, fZ);
    PassesDisjoint(col.a);
  }

  /** The attribute word's polygon id (bits 24-29), fog flag (bit 15) and blend
      mode (bits 4-5) come back out of a word that packs them. */
  lemma PolygonAttrRoundTrip(blend: int, fog: int, id: int, low: int)
    requires 0 <= blend < 4 && 0 <= fog < 2 && 0 <= id < 64 && 0 <= low < 16
    ensures var attrX := low + 16 * blend + 0x8000 * fog + 0x100_0000 * id;
            BlendMode(attrX) == blend && FogFlag(attrX) == fog && PolyId(attrX) == id
  {
    var attrX := low + 16 * blend + 0x8000 * fog + 0x100_0000 * id;
    DivModUnique(attrX, 16, blend + 0x800 * fog + 0x10_0000 * id, low);
    DivModUnique(blend + 0x800 * fog + 0x10_0000 * id, 4, 0x200 * fog + 0x4_0000 * id, blend);
    DivModUnique(attrX, 0x8000, fog + 0x200 * id, low + 16 * blend);
    DivModUnique(fog + 0x200 * id, 2, 0x100 * id, fog);
    DivModUnique(attrX, 0x100_0000, id, low + 16 * blend + 0x8000 * fog);
    DivModUnique(id, 64, 0, id);
  }
}
