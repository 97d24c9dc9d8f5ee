# melonDS OpenGL renderer: texel decoding, compositing and fragment output

This project models the integer core of the OpenGL fragment shaders that melonDS
uses to emulate the Nintendo DS 3D engine (`src/GPU3D_OpenGL_shaders.h`):

- `TexcoordWrap`, the per-axis clamp / repeat / mirrored-repeat policy (module `Wrap`);
- the seven `TextureFetch_*` decoders (A3I5, I2, I4, I8, 4x4-compressed, A5I3,
  direct 1-5-5-5), reading a byte plane (`TexMem`) and a palette plane
  (`TexPalMem`) at linear addresses split into column `a & 0x3FF` and row
  `a >> 10` (modules `Memory`, `Texel`, with their properties in `TexelProps`);
- the texture descriptor taken from the polygon attribute word (alpha0 from
  bit 29, sizes `8 << field`, texel base `(attr & 0xFFFF) << 3`, wrap mode
  `attr >> 16`, type `(attr >> 26) & 7`) and the format dispatch with its
  fall-through to Direct (module `Sampler`);
- `CalculateFog` and the final pass that applies it (module `Fog`);
- `FinalColor`, the toon / highlight / decal / modulate / shadow compositor
  with its `.bgra` swizzle (module `Compositor`);
- the `main` of the six fragment-shader variants `kRenderFS_ZO/WO/ZT/WT/ZSM/WSM`:
  alpha discard, colour and attribute-buffer writes, explicit depth
  (module `OutputStage`).

Every shader function is straight-line code over read-only planes, so the
whole model is Dafny functions and lemmas. GLSL `int` is modelled by Dafny
`int`: `x & (2^k - 1)` is `x % 2^k` and `x >> k` is `x / 2^k` (Euclidean
division agrees with an arithmetic shift also for negative `x`); an `|` of
disjoint bit ranges is an addition. The fog computation on `uint` is done
modulo 2^32. Colours are exact `real`s; palette entries are 5-bit
numerators normalised by `/ 31`, so the `/2`, `(5c0+3c1)/8` and decal blends
are exact.

## Model

| member | source | states |
|---|---|---|
| Wrap.TexSize | src/GPU3D_OpenGL_shaders.h:485-486 | `8 << field` for a 3-bit field is a power of two between 8 and 1024 |
| Wrap.TexcoordWrap | src/GPU3D_OpenGL_shaders.h:184-195 | the wrapped coordinate lies in [0, maxc) for every mode and every sign of c |
| Wrap.WrapInRange | src/GPU3D_OpenGL_shaders.h:184-195 | a coordinate already inside the texture is returned unchanged in every mode |
| Wrap.WrapClampEdges | src/GPU3D_OpenGL_shaders.h:193-194 | with repeat off, coordinates left of the texture go to 0 and right of it to maxc-1 |
| Wrap.WrapRepeatPeriodic | src/GPU3D_OpenGL_shaders.h:186-191 | plain repeat is c mod maxc and periodic with period maxc |
| Wrap.WrapMirrorReflects | src/GPU3D_OpenGL_shaders.h:188-189 | under mirrored repeat, c and -1-c sample the same texel |
| Wrap.WrapMirrorPeriodic | src/GPU3D_OpenGL_shaders.h:188-189 | mirrored repeat is periodic with period 2*maxc |
| Wrap.WrapModeBits | src/GPU3D_OpenGL_shaders.h:186-188 | only bits 0 and 2 of the mode influence the result |
| Wrap.WrapPoliciesDiffer | src/GPU3D_OpenGL_shaders.h:184-195 | on an 8-texel axis, -1 goes to 0 under mirror, to 7 under repeat, to 0 under clamp |
| Texel.WrapCoord | src/GPU3D_OpenGL_shaders.h:199-200 | both axes are wrapped into the texture (x by `wrapmode`, y by `wrapmode >> 1`), dimensions kept |
| Texel.A3I5Alpha | src/GPU3D_OpenGL_shaders.h:205-206 | the expanded A3I5 alpha is a 5-bit value |
| Texel.A3I5Index | src/GPU3D_OpenGL_shaders.h:207 | the A3I5 palette index is below 32 |
| Texel.A5I3Alpha | src/GPU3D_OpenGL_shaders.h:347 | the A5I3 alpha is a 5-bit value |
| Texel.A5I3Index | src/GPU3D_OpenGL_shaders.h:348 | the A5I3 palette index is below 8 |
| Texel.I2Index | src/GPU3D_OpenGL_shaders.h:222-223 | the I2 index is below 4 |
| Texel.I4Index | src/GPU3D_OpenGL_shaders.h:238-239 | the I4 index is below 16 |
| Texel.DecodeDirect | src/GPU3D_OpenGL_shaders.h:367-370 | the direct-colour alpha is 0 or 1 |
| Texel.FetchA3I5 | src/GPU3D_OpenGL_shaders.h:197-213 | the A3I5 decoder returns a colour with every channel in [0, 1] |
| Texel.FetchI2 | src/GPU3D_OpenGL_shaders.h:215-229 | the I2 decoder returns a normalised colour |
| Texel.I2Texel | src/GPU3D_OpenGL_shaders.h:220-228 | the I2 read of texel number n in column x returns a normalised colour |
| Texel.FetchI4 | src/GPU3D_OpenGL_shaders.h:231-245 | the I4 decoder returns a normalised colour |
| Texel.I4Texel | src/GPU3D_OpenGL_shaders.h:236-244 | the I4 read of texel number n in column x returns a normalised colour |
| Texel.FetchI8 | src/GPU3D_OpenGL_shaders.h:247-259 | the I8 decoder returns a normalised colour |
| Texel.FetchA5I3 | src/GPU3D_OpenGL_shaders.h:339-354 | the A5I3 decoder returns a normalised colour |
| Texel.FetchDirect | src/GPU3D_OpenGL_shaders.h:356-373 | the direct decoder returns a normalised colour whose alpha is 0 or 1 |
| Texel.FetchCompressed | src/GPU3D_OpenGL_shaders.h:261-337 | the compressed decoder returns a normalised colour |
| Texel.CompressedTexel | src/GPU3D_OpenGL_shaders.h:266-336 | an in-texture compressed texel decodes to a normalised colour |
| Texel.PalInfo | src/GPU3D_OpenGL_shaders.h:272-277 | the slot-1 palette-info word is a 16-bit value |
| Texel.CompressedByteOffset | src/GPU3D_OpenGL_shaders.h:266 | texel (x, y) of a valid texture is byte y & 3 of 4-byte block (y/4)*(w/4) + x/4 |
| Texel.Slot1Addr | src/GPU3D_OpenGL_shaders.h:270-271 | the palette-info address of a slot-0 or slot-2 texel lies inside slot 1, [0x20000, 0x40000) |
| Texel.CompressedColor | src/GPU3D_OpenGL_shaders.h:283-336 | the colour is normalised and fully opaque or fully transparent; transparent exactly for value 3 in modes 0 and 1, and then all zero |
| Memory.TexByte | src/GPU3D_OpenGL_shaders.h:203 | an address inside the texel plane reads that byte, any other address reads 0 |
| Memory.PalEntry | src/GPU3D_OpenGL_shaders.h:210 | an address inside the palette plane reads that entry, any other address reads black |
| TexelProps.A3I5AlphaExpansion | src/GPU3D_OpenGL_shaders.h:205-206 | the 3-bit alpha a expands to 4a + a/2 |
| TexelProps.A3I5AlphaMonotone | src/GPU3D_OpenGL_shaders.h:205-206 | the expansion is strictly increasing, 0 maps to 0 and 7 to 31 |
| TexelProps.A3I5RoundTrip | src/GPU3D_OpenGL_shaders.h:205-207 | a byte packed as alpha << 5 \| index decodes to that index and the expanded alpha |
| TexelProps.A5I3RoundTrip | src/GPU3D_OpenGL_shaders.h:347-348 | a byte packed as alpha << 3 \| index decodes to that alpha and index |
| TexelProps.I2RoundTrip | src/GPU3D_OpenGL_shaders.h:222-223 | four crumbs packed lowest-first come back out, texel x reading crumb x & 3 |
| TexelProps.I4RoundTrip | src/GPU3D_OpenGL_shaders.h:238-239 | the high nibble is read exactly when x is odd, the low one otherwise |
| TexelProps.I2TexelLayout | src/GPU3D_OpenGL_shaders.h:220-228 | when texel number n and column x agree in their low two bits, the I2 read is the palette entry at crumb n % 4 of byte n / 4, alpha 1 for a non-zero index and alpha0 for index 0 |
| TexelProps.I2Crumb | src/GPU3D_OpenGL_shaders.h:222-223 | selecting the crumb by x & 3 picks crumb n % 4 whenever n and x agree in their low two bits |
| TexelProps.I4TexelLayout | src/GPU3D_OpenGL_shaders.h:236-244 | when n and x have the same parity, the I4 read is the palette entry at nibble n % 2 of byte n / 2, alpha 1 for a non-zero index and alpha0 for index 0 |
| TexelProps.I4Nibble | src/GPU3D_OpenGL_shaders.h:238-239 | selecting the nibble by x & 1 picks nibble n % 2 whenever n and x have the same parity |
| TexelProps.TexelNumberLowBits | src/GPU3D_OpenGL_shaders.h:220-239 | the row-major texel number y * w + x of an in-texture texel agrees with x modulo 4 (and 2), because every width is a multiple of 8 |
| TexelProps.DirectWord | src/GPU3D_OpenGL_shaders.h:367-370 | the fields are bits 0-4, 5-9, 10-14 and 15 of the little-endian word lo \| hi << 8 |
| TexelProps.DirectRoundTrip | src/GPU3D_OpenGL_shaders.h:361-370 | a 1-5-5-5 word stored as two bytes decodes to the same four fields |
| TexelProps.Slot1Layout | src/GPU3D_OpenGL_shaders.h:270-271 | slot-0 and slot-2 blocks find their palette-info word at 0x20000 + 2*(block) and 0x30000 + 2*(block), inside slot 1 |
| TexelProps.CompressedTable | src/GPU3D_OpenGL_shaders.h:283-336 | values 0/1 read entries 0/1, value 2 reads entry 2 outside modes 1 and 3, value 3 reads entry 3 in mode 2; transparent exactly for value 3 in modes 0 and 1, opaque otherwise |
| TexelProps.CompressedInterpolants | src/GPU3D_OpenGL_shaders.h:294-332 | mode 3 gives (5 c0 + 3 c1) / 8 for value 2 and (3 c0 + 5 c1) / 8 for value 3 on every channel, mode 1 gives (c0 + c1) / 2, all opaque and on 5-bit numerators normalised by 31; the two blends are mirror images and the midpoint is their mean |
| Sampler.TypeField | src/GPU3D_OpenGL_shaders.h:492 | the type field is a 3-bit code |
| Sampler.FormatOf | src/GPU3D_OpenGL_shaders.h:492-699 | codes 1..6 select the format with that code, and exactly the other codes select Direct |
| Sampler.DecodeTexParams | src/GPU3D_OpenGL_shaders.h:481-492 | the decoded sizes are valid texture sizes (8 to 1024, powers of two) and alpha0 lies in [0, 1] |
| Sampler.FetchTexel | src/GPU3D_OpenGL_shaders.h:492-699 | every tap of the dispatch returns a normalised colour |
| Sampler.FormatCodeRoundTrip | src/GPU3D_OpenGL_shaders.h:492-699 | each type code 1..6 selects its format back, and exactly the codes outside 1..6 (0 and 7 among them) select Direct |
| Sampler.TexAttrRoundTrip | src/GPU3D_OpenGL_shaders.h:481-492 | decoding a packed attribute word gives back the sizes, texel base, format, alpha0 flag and the per-axis repeat/mirror bits |
| Sampler.TopBitsIgnored | src/GPU3D_OpenGL_shaders.h:481-492 | adding any multiple of 2^30 to the attribute word (bits 30 and 31, a negative word included) leaves sizes, addresses, format and alpha0 unchanged and adds the same multiple of 0x4000 to the wrap mode |
| Sampler.WrapBitsIgnoreTop | src/GPU3D_OpenGL_shaders.h:186-188 | that multiple of 0x4000 changes none of the four wrap bits the decoders read, so by Wrap.WrapModeBits the wrapping is the same |
| Sampler.FetchTexelWrapped | src/GPU3D_OpenGL_shaders.h:197-373 | for every format a tap depends on its coordinates only through the wrapped coordinates |
| Sampler.FetchTexelRepeats | src/GPU3D_OpenGL_shaders.h:184-195 | every format's tap repeats with the texture width under plain repeat and agrees at s and -1-s under mirror |
| Sampler.IndexAlphaTransparent | src/GPU3D_OpenGL_shaders.h:481-483 | an I2/I4/I8 texel has alpha 0 exactly when its index is 0 and attribute bit 29 is set, else alpha 1 |
| Fog.ShiftedDepth | src/GPU3D_OpenGL_shaders.h:101-103 | the shifted depth is a 32-bit unsigned value |
| Fog.FogIndex | src/GPU3D_OpenGL_shaders.h:94-113 | id is at most 32 and frac below 131072, id 32 has frac 0, and a depth below the offset gives (0, 0) |
| Fog.CalculateFog | src/GPU3D_OpenGL_shaders.h:89-118 | the density lies between the two table entries it interpolates, at the fog index of the depth |
| Fog.FogPass | src/GPU3D_OpenGL_shaders.h:120-131 | a pixel without the fog flag gets all-zero output; a pixel with it gets the density of its depth in all four channels |
| Fog.FogBelowOffset | src/GPU3D_OpenGL_shaders.h:94-98 | a depth below the offset gets exactly density table entry 0 |
| Fog.FogFrozen | src/GPU3D_OpenGL_shaders.h:105-110 | when the raw index `udepth >> 17` is 32 or more, the index is clamped to (32, 0) and the density is exactly entry 32 |
| Fog.FogNormalised | src/GPU3D_OpenGL_shaders.h:89-118 | a table of densities in [0, 1] gives a density in [0, 1] |
| Fog.FogNoWrap | src/GPU3D_OpenGL_shaders.h:101-103 | for 24-bit depths and shift at most 10 the uint arithmetic does not wrap |
| Fog.FogIndexPosition | src/GPU3D_OpenGL_shaders.h:99-113 | at or above the offset, id * 131072 + frac is the 32-bit shifted depth saturated at 32 * 131072 |
| Fog.FogPosition | src/GPU3D_OpenGL_shaders.h:99-113 | for 24-bit depths and shifts up to 10, id * 131072 + frac is ((depth - offset) >> 2) << shift saturated at 32 * 131072 |
| Fog.FogDepthOneWraps | src/GPU3D_OpenGL_shaders.h:91-103 | at depth 1.0 with offset 0 and shift 10 the shifted depth wraps to 0, so the pixel reads table entry 0 |
| Fog.FogMonotone | src/GPU3D_OpenGL_shaders.h:89-118 | the table position never decreases as depth grows |
| Compositor.BlendMode | src/GPU3D_OpenGL_shaders.h:867 | the blend mode is a 2-bit value |
| Compositor.ToonIndex | src/GPU3D_OpenGL_shaders.h:874 | int(r * 31) for r in [0, 1] is a valid toon-table index and the integer part of r * 31 |
| Compositor.ShadedVertex | src/GPU3D_OpenGL_shaders.h:869-882 | blend modes other than 2 keep the vertex colour; mode 2 replaces rgb by the toon entry at int(r * 31), or by r, r, r in highlight mode; alpha is never changed |
| Compositor.Decal | src/GPU3D_OpenGL_shaders.h:894-899 | decal keeps the vertex alpha, gives the vertex colour for a transparent texel and the texel colour for an opaque one |
| Compositor.Modulate | src/GPU3D_OpenGL_shaders.h:900-904 | an opaque white texel leaves the vertex colour unchanged, a transparent texel gives alpha 0 |
| Compositor.TexBlend | src/GPU3D_OpenGL_shaders.h:884-905 | untextured fragments keep the vertex colour; alpha is the product with the texel alpha exactly for textured even blend modes |
| Compositor.Highlight | src/GPU3D_OpenGL_shaders.h:907-914 | keeps alpha and adds the toon colour channel-wise; a channel whose sum is at most 1 is that sum, and one whose sum reaches 1 is exactly 1 |
| Compositor.FinalColor | src/GPU3D_OpenGL_shaders.h:863-917 | the output alpha is the vertex alpha times the texel alpha for textured modulate and toon, the vertex alpha otherwise |
| Compositor.BgraInvolution | src/GPU3D_OpenGL_shaders.h:916 | the swizzle exchanges red and blue and is its own inverse |
| Compositor.NoTexturePassThrough | src/GPU3D_OpenGL_shaders.h:884-888 | without a texture, modes 0, 1 and 3 output the swizzled vertex colour |
| Compositor.DecalTransparentTexel | src/GPU3D_OpenGL_shaders.h:894-899 | decal with texel alpha 0 outputs the vertex colour and alpha |
| Compositor.DecalOpaqueTexel | src/GPU3D_OpenGL_shaders.h:894-899 | decal with an opaque texel outputs the texel colour with the vertex alpha |
| Compositor.ModulateWhite | src/GPU3D_OpenGL_shaders.h:900-904 | modulate with an opaque white texel outputs the vertex colour |
| Compositor.ShadowComposesAsDecal | src/GPU3D_OpenGL_shaders.h:894 | blend mode 3 composes exactly as blend mode 1 |
| Compositor.ToonUntextured | src/GPU3D_OpenGL_shaders.h:871-876 | untextured toon outputs the toon entry at int(r * 31) with the vertex alpha |
| Compositor.HighlightUntextured | src/GPU3D_OpenGL_shaders.h:869-916 | untextured highlight outputs r + toon, clamped at 1 per channel, with the vertex alpha, swizzled to bgra |
| Compositor.HighlightTextured | src/GPU3D_OpenGL_shaders.h:869-916 | textured highlight outputs r times the texel plus the toon colour at int(r * 31), clamped at 1 per channel, with alpha the product of vertex and texel alphas, swizzled to bgra |
| Compositor.HighlightBounded | src/GPU3D_OpenGL_shaders.h:907-914 | highlight output colour channels never exceed 1 |
| Compositor.FinalColorNormalised | src/GPU3D_OpenGL_shaders.h:863-917 | normalised vertex, texel and toon colours give a normalised output in every blend mode |
| Compositor.TexBlendNormalised | src/GPU3D_OpenGL_shaders.h:884-905 | decal and modulate keep colours normalised |
| OutputStage.PolyId | src/GPU3D_OpenGL_shaders.h:974 | the written polygon id is at most 63 |
| OutputStage.FogFlag | src/GPU3D_OpenGL_shaders.h:975 | the fog flag is 0 or 1 |
| OutputStage.OpaqueKeeps | src/GPU3D_OpenGL_shaders.h:971 | full alpha passes the opaque test and anything that passes is above 30/31 |
| OutputStage.TranslucentKeeps | src/GPU3D_OpenGL_shaders.h:1002-1003 | anything that passes the translucent test is strictly between 0 and 1 and fails the opaque test |
| OutputStage.RenderFragment | src/GPU3D_OpenGL_shaders.h:966-1045 | shadow-mask variants always draw opaque black; every other variant that draws writes the FinalColor of the fragment |
| OutputStage.ShadeFragment | src/GPU3D_OpenGL_shaders.h:966-1045 | W variants write fZ as depth, Z variants no depth |
| OutputStage.PassesDisjoint | src/GPU3D_OpenGL_shaders.h:971-1003 | no alpha passes both the opaque and the translucent test |
| OutputStage.AlphaGrid | src/GPU3D_OpenGL_shaders.h:971-1003 | for alpha k/31 the opaque pass keeps only k = 31, the translucent pass exactly k in 1..30 |
| OutputStage.OpaqueBoundary | src/GPU3D_OpenGL_shaders.h:971 | alpha 1 is kept and 30/31 discarded by the opaque pass |
| OutputStage.ShadeFragmentOutputs | src/GPU3D_OpenGL_shaders.h:966-1045 | opaque variants draw exactly the fragments passing the opaque test, write their colour unchanged and record polygon id / 63 and the fog flag; translucent ones draw exactly those passing the translucent test, write their colour unchanged and record no id and fog 0; shadow-mask ones always draw opaque black without attributes |
| OutputStage.OpaqueTranslucentExclusive | src/GPU3D_OpenGL_shaders.h:966-1025 | for the same inputs an opaque and a translucent variant never both draw the fragment |
| OutputStage.PolygonAttrRoundTrip | src/GPU3D_OpenGL_shaders.h:974-975 | blend mode, fog flag and polygon id packed into the attribute word come back out |

Notes on the shader's behaviour, each as the code has it:

- The fog density table has 34 entries (`uFogDensity[34]`), so entry id + 1
  exists for id = 32.
- The texel base is the low 16 bits of the attribute word, shifted left by 3.
- In the compressed format, value 2 reads palette entry 2 in modes 0 and 2;
  it is transparent in neither.
- The translucent variants keep alpha 0.5/31 itself (their test is
  `< 0.5/31`), so the kept range is [0.5/31, 30.5/31).
- Blend mode 3 (shadow) takes the decal branch of `FinalColor`, as its low
  bit selects.
- At depth 1.0 (integer depth 2^24) with fog offset 0 and fog shift 10,
  `(udepth >> 2) << 10` is 2^32, which wraps to 0 in `uint`: the pixel gets
  table entry 0 rather than entry 32 (`Fog.FogDepthOneWraps`).

## Left out

- The edge-adaptive filter inside `TextureLookup_Nearest` (src/GPU3D_OpenGL_shaders.h:375-750) is floating-point numerics; `FinalColor` takes the texel it returns as a parameter, and only the per-tap format dispatch (`Sampler.FetchTexel`) is modelled.
- `TextureLookup_Linear` (src/GPU3D_OpenGL_shaders.h:753-861) is float bilinear interpolation and is not called.
- The render vertex shaders (src/GPU3D_OpenGL_shaders.h:921-963) and the final-pass vertex shader (src/GPU3D_OpenGL_shaders.h:59-68) only pass on or normalise positions, depths and colours.
- The clear shaders (src/GPU3D_OpenGL_shaders.h:25-55) are not modelled: the vertex shader maps the 24-bit clear depth to [-1, 1], and the fragment shader writes `oColor = uColor.bgra / 31`, `oAttr.r = uOpaquePolyID / 63`, `oAttr.g = 0`, `oAttr.b = uFogFlag`, `oAttr.a = 1` for every pixel, uniforms that the model does not take.
- Float-to-int conversions are not modelled: the fog works from the integer depth `int(depth * 16777216.0)`, and the toon index is the floor of `r * 31` on exact reals, with no float rounding.
- Compositor.FinalColor: requires the vertex red channel in [0, 1], the range of the interpolated normalised vertex colour; outside it the source's toon-table index is out of bounds, which GLSL leaves undefined.
- `texelFetch` outside a plane is undefined in GL; the model returns a zero byte or a black palette entry there.
- The palette plane is modelled as holding 5-bit channel numerators; the upload that converts palette RAM into that texture is not part of this model.
- Address arithmetic (`(attr & 0xFFFF) << 3`, `addr.y << 3`, texel offsets) is on unbounded integers; 32-bit overflow of these shifts cannot occur for valid attribute words and is not modelled.
- Fog.FogNoWrap, Fog.FogPosition, Fog.FogMonotone: stated only for depths below 2^24, offsets in [0, depth] and shifts up to 10; beyond that the uint arithmetic wraps, which `Fog.ShiftedDepth` models but these lemmas do not describe.
- Blending the fog colour into the image is done by another pass, not by these shaders; only the density the final pass writes is modelled.
- GL plumbing: `discard` is the `Discard` outcome, `gl_FragDepth` an optional depth, the framebuffer reads of the final pass are parameters; uniform layout, `#version` headers and the C string wrapping are not modelled.
- `oAttr.g` is never written by the fragment variants and is not part of the model's attribute output.
