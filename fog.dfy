/** CalculateFog: the fog density of a pixel from its 24-bit depth, the fog
    offset and shift, and the 34-entry density table, as the final pass
    computes it; and the pass itself, which applies it only where the
    attribute buffer flags fog. */
module Fog {
  import opened Memory

  /** The range of a GLSL uint. */
  const U32: int := 0x1_0000_0000

  /** The step of one density-table entry in the shifted depth: 1 << 17. */
  const Step: int := 0x2_0000

  /** uFogDensity[34], uFogOffset, uFogShift. */
  datatype FogConfig = FogConfig(density: seq<real>, offset: int, shift: int)

  predicate ValidFog(cfg: FogConfig)
  {
    |cfg.density| == 34 && 0 <= cfg.shift < 32
  }

  /** (densityid, densityfrac). */
  datatype DensityIndex = DensityIndex(id: int, frac: int)

  /** The shifted depth (uint(idepth) - uint(uFogOffset)) >> 2 << uFogShift,
      every step modulo 2^32 like the uint arithmetic it models. */
  function ShiftedDepth(idepth: int, offset: int, shift: nat): (u: int)
    ensures 0 <= u < U32
  {
    var u1 := (idepth % U32 - offset % U32) % U32;
    ((u1 / 4) * Pow2(shift)) % U32
  }

  /** densityid = udepth >> 17, frozen to (32, 0) from 32 on; densityfrac = udepth & 0x1FFFF.
      Below the offset both are 0. */
  function FogIndex(idepth: int, offset: int, shift: nat): (r: DensityIndex)
    ensures 0 <= r.id <= 32 && 0 <= r.frac < Step
    ensures r.id == 32 ==> r.frac == 0
    ensures idepth < offset ==> r == DensityIndex(0, 0)
  {
    if idepth < offset then DensityIndex(0, 0)
    else
      var u := ShiftedDepth(idepth, offset, shift);
      var id := u / Step;
      if id >= 32 then DensityIndex(32, 0) else DensityIndex(id, u % Step)
  }

  /** GLSL mix(x, y, t). */
  function Mix(x: real, y: real, t: real): real
  {
    x * (1.0 - t) + y * t
  }

  /** The fog density: mix(uFogDensity[id], uFogDensity[id+1], frac / 131072).
      It lies between the two table entries it interpolates. */
  function CalculateFog(cfg: FogConfig, idepth: int): (d: real)
    requires ValidFog(cfg)
    ensures var r := FogIndex(idepth, cfg.offset, cfg.shift);
            var lo, hi := cfg.density[r.id], cfg.density[r.id + 1];
            (lo <= hi ==> lo <= d <= hi) && (hi <= lo ==> hi <= d <= lo)
  {
    var r := FogIndex(idepth, cfg.offset, cfg.shift);
    var t := r.frac as real / Step as real;
    MixBetween(cfg.density[r.id], cfg.density[r.id + 1], t);
    Mix(cfg.density[r.id], cfg.density[r.id + 1], t)
  }

  /** The final pass: the density in all four channels where the attribute
      buffer's fog flag (attr.b) is set, zero elsewhere. */
  function FogPass(cfg: FogConfig, fogFlag: real, idepth: int): (c: RGBA)
    requires ValidFog(cfg)
    ensures fogFlag == 0.0 ==> c == Transparent
    ensures fogFlag != 0.0 ==> var d := CalculateFog(cfg, idepth); c == RGBA(d, d, d, d)
  {
    if fogFlag != 0.0 then
      var d := CalculateFog(cfg, idepth);
      RGBA(d, d, d, d)
    else Transparent
  }

  // ---------------------------------------------------------------------
  // Properties

  /** A depth below the offset gets exactly the first table entry, whatever the shift. */
  lemma FogBelowOffset(cfg: FogConfig, idepth: int)
    requires ValidFog(cfg) && idepth < cfg.offset
    ensures CalculateFog(cfg, idepth) == cfg.density[0]
  {
  }

  /** Once the raw index udepth >> 17 reaches 32 it is frozen to (32, 0), so
      the density is exactly entry 32, not extrapolated. */
  lemma FogFrozen(cfg: FogConfig, idepth: int)
    requires ValidFog(cfg) && idepth >= cfg.offset
    requires ShiftedDepth(idepth, cfg.offset, cfg.shift) / Step >= 32
    ensures FogIndex(idepth, cfg.offset, cfg.shift) == DensityIndex(32, 0)
    ensures CalculateFog(cfg, idepth) == cfg.density[32]
  {
  }

  /** A table of normalised densities gives a normalised density. */
  lemma FogNormalised(cfg: FogConfig, idepth: int)
    requires ValidFog(cfg) && forall i :: 0 <= i < 34 ==> Unit(cfg.density[i])
    ensures Unit(CalculateFog(cfg, idepth))
  {
    var r := FogIndex(idepth, cfg.offset, cfg.shift);
    assert Unit(cfg.density[r.id]) && Unit(cfg.density[r.id + 1]);
  }

  lemma MixBetween(x: real, y: real, t: real)
    requires 0.0 <= t <= 1.0
    ensures x <= y ==> x <= Mix(x, y, t) <= y
    ensures y <= x ==> y <= Mix(x, y, t) <= x
  {
    assert Mix(x, y, t) == x + (y - x) * t;
    if x <= y {
      NonnegProduct(y - x, t);
      NonnegProduct(y - x, 1.0 - t);
      assert (y - x) * t + (y - x) * (1.0 - t) == y - x;
    } else {
      NonnegProduct(x - y, t);
      NonnegProduct(x - y, 1.0 - t);
      assert (x - y) * t + (x - y) * (1.0 - t) == x - y;
    }
  }

  /** On the domain this lemma chooses (24-bit depths, offsets in [0, depth],
      shifts up to 10) the uint arithmetic never wraps: the shifted depth is
      exactly ((idepth - offset) >> 2) << shift. */
  lemma FogNoWrap(idepth: int, offset: int, shift: nat)
    requires 0 <= offset <= idepth < 0x100_0000 && shift <= 10
    ensures ShiftedDepth(idepth, offset, shift) == ((idepth - offset) / 4) * Pow2(shift)
  {
    var d := idepth - offset;
    DivModUnique(idepth, U32, 0, idepth);
    DivModUnique(offset, U32, 0, offset);
    DivModUnique(d, U32, 0, d);
    Pow2Monotone(shift, 10);
    Pow2Ten();
    var q := d / 4;
    assert 0 <= q < 0x40_0000;
    MulMonotone2(q, 0x40_0000, Pow2(shift), 1024);
    MulMonotone(0, q, Pow2(shift));
    DivModUnique(q * Pow2(shift), U32, 0, q * Pow2(shift));
  }

  /** At or above the offset, the table position id * 2^17 + frac is the
      shifted depth saturated at 32 * 2^17: the fog index is a clamped
      fixed-point number. */
  lemma FogIndexPosition(idepth: int, offset: int, shift: nat)
    requires idepth >= offset
    ensures var r := FogIndex(idepth, offset, shift);
            var u := ShiftedDepth(idepth, offset, shift);
            r.id * Step + r.frac == (if u < 32 * Step then u else 32 * Step)
  {
    var u := ShiftedDepth(idepth, offset, shift);
    if u / Step < 32 {
      assert u == (u / Step) * Step + u % Step;
    } else {
      assert u >= 32 * Step;
    }
  }

  /** Where nothing wraps, the same holds of the unbounded shifted depth. */
  lemma FogPosition(idepth: int, offset: int, shift: nat)
    requires 0 <= offset <= idepth < 0x100_0000 && shift <= 10
    ensures var r := FogIndex(idepth, offset, shift);
            var u := ((idepth - offset) / 4) * Pow2(shift);
            r.id * Step + r.frac == (if u < 32 * Step then u else 32 * Step)
  {
    FogNoWrap(idepth, offset, shift);
    FogIndexPosition(idepth, offset, shift);
  }

  /** Just outside that domain the uint arithmetic wraps: at depth 1.0
      (idepth 2^24) with offset 0 and shift 10, (2^24 >> 2) << 10 is 2^32,
      which wraps to 0, so the pixel gets table entry 0 instead of entry 32. */
  lemma FogDepthOneWraps(cfg: FogConfig)
    requires ValidFog(cfg) && cfg.offset == 0 && cfg.shift == 10
    ensures ShiftedDepth(0x100_0000, 0, 10) == 0
    ensures FogIndex(0x100_0000, 0, 10) == DensityIndex(0, 0)
    ensures CalculateFog(cfg, 0x100_0000) == cfg.density[0]
  {
    Pow2Ten();
    DivModUnique(0x100_0000, U32, 0, 0x100_0000);
    DivModUnique(0x40_0000 * 1024, U32, 1, 0);
  }

  /** Hence, in that range, fog never decreases with depth: the table
      position is monotone in idepth. */
  lemma FogMonotone(d1: int, d2: int, offset: int, shift: nat)
    requires 0 <= offset <= d1 <= d2 < 0x100_0000 && shift <= 10
    ensures var r1, r2 := FogIndex(d1, offset, shift), FogIndex(d2, offset, shift);
            r1.id * Step + r1.frac <= r2.id * Step + r2.frac
  {
    FogPosition(d1, offset, shift);
    FogPosition(d2, offset, shift);
    var p := Pow2(shift);
    assert (d1 - offset) / 4 <= (d2 - offset) / 4;
    MulMonotone((d1 - offset) / 4, (d2 - offset) / 4, p);
  }
}
