/** The integer arithmetic of one wall column: the vertical clip, the
    texture column with its mirroring, the texture row stepping, the
    column's light factors and the written pixel. The wall distance and
    the point hit on the wall are floating-point results taken as given. */
module WallColumn {
  import opened CArith
  import opened Pixels
  import opened Textures
  import opened Lighting
  import opened Shading
  import opened Dda
  import opened Wrappers

  /** The floating-point results for one column: `line_height`, the
      truncated h / perp_wall_dist, and the coordinate along the wall
      where the ray meets it (`wall_x` before its integer part is removed). */
  datatype ColumnGeometry = ColumnGeometry(lineHeight: int, wallHit: real)

  /** `draw_start` and `draw_end`: the wall stripe centred on h / 2 with
      C's truncating halving, clipped to start at 0 and end at h - 1 at
      most. The rows drawn are [start, end). */
  function Clip(lineHeight: int, h: int): (r: (int, int))
    requires h >= 0
    ensures 0 <= r.0 && r.1 <= h - 1
    ensures r.0 == (if CHalf(-lineHeight) + h / 2 < 0 then 0 else CHalf(-lineHeight) + h / 2)
    ensures r.1 == (if CHalf(lineHeight) + h / 2 >= h then h - 1 else CHalf(lineHeight) + h / 2)
  {
    var start := CHalf(-lineHeight) + CHalf(h);
    var end := CHalf(lineHeight) + CHalf(h);
    (if start < 0 then 0 else start, if end >= h then h - 1 else end)
  }

  /** The stripe never reaches the last screen row: every row it draws
      lies in [0, h - 1). */
  lemma ClipRows(lineHeight: int, h: int, y: int)
    requires h >= 0
    ensures var (s, e) := Clip(lineHeight, h); s <= y < e ==> 0 <= y < h - 1
  {
  }

  /** A wall no taller than the screen is drawn in full, centred. */
  lemma ClipUnclipped(lineHeight: int, h: int)
    requires 0 <= lineHeight <= h
    ensures Clip(lineHeight, h) == (h / 2 - lineHeight / 2, lineHeight / 2 + h / 2)
            || Clip(lineHeight, h) == (h / 2 - lineHeight / 2, h - 1)
  {
  }

  /** The ray turns the texture over: `tex_x` is mirrored exactly when
      the ray hits an x side moving right or a y side moving up. */
  predicate Mirrored(side: int, rdx: real, rdy: real)
  {
    (side == 0 && rdx > 0.0) || (side == 1 && rdy < 0.0)
  }

  /** `tex_x`: the fractional part of the hit coordinate scaled to a
      texture column, mirrored when `Mirrored` holds. */
  function TexX(wallHit: real, side: int, rdx: real, rdy: real): (t: int)
    ensures 0 <= t < TextureSize
    ensures var raw := Trunc((wallHit - wallHit.Floor as real) * TextureSize as real);
            && 0 <= raw < TextureSize
            && (Mirrored(side, rdx, rdy) ==> t == TextureSize - raw - 1)
            && (!Mirrored(side, rdx, rdy) ==> t == raw)
  {
    var wallX := wallHit - wallHit.Floor as real;
    var texX := Trunc(wallX * TextureSize as real);
    if (side == 0 && rdx > 0.0) || (side == 1 && rdy < 0.0) then TextureSize - texX - 1 else texX
  }

  /** `step`: texture rows per screen row, 64 / line_height. The value for
      a zero height is never used, since no row is drawn then. */
  function TexStep(lineHeight: int): real
  {
    if lineHeight == 0 then 0.0 else TextureSize as real / lineHeight as real
  }

  /** `tex_pos` before the first drawn row. */
  function TexPosStart(drawStart: int, h: int, lineHeight: int): real
  {
    (drawStart - h / 2 + CHalf(lineHeight)) as real * TexStep(lineHeight)
  }

  /** `tex_pos` after k rows of the stripe: the start plus k steps, added
      one at a time as the loop does. */
  function TexPosAt(start: real, step: real, k: nat): real
  {
    if k == 0 then start else TexPosAt(start, step, k - 1) + step
  }

  /** Adding the step k times is moving k steps at once. */
  lemma {:induction false} TexPosAtClosed(start: real, step: real, k: nat)
    ensures TexPosAt(start, step, k) == start + k as real * step
  {
    if k > 0 {
      TexPosAtClosed(start, step, k - 1);
      assert (k - 1) as real * step + step == k as real * step;
    }
  }

  /** `tex_y`: the integer part of `tex_pos` masked to six bits. */
  function TexY(texPos: real): (t: int)
    ensures 0 <= t < TextureSize
  {
    Low6(Trunc(texPos))
  }

  /** The grid line `perp_wall_dist` is measured to along the stepped
      axis: `map + (1 - step) / 2`, the face of the hit cell the ray
      enters through. */
  function CrossedLine(c: int, step: int): int
  {
    c + (1 - step) / 2
  }

  /** `wall_world_x`, `wall_world_y`: the world point the column's light
      is sampled at. Along the stepped axis it is `map + 1` when the step
      is positive and `map` otherwise: the face of the hit cell opposite
      the one the ray crossed, one step beyond `CrossedLine`. Along the
      other axis it is the hit coordinate. */
  function WallWorld(h: Hit, stepX: int, stepY: int, wallHit: real): (w: (real, real))
    requires UnitStep(stepX) && UnitStep(stepY)
    ensures h.side == 0 ==> w == ((CrossedLine(h.mapX, stepX) + stepX) as real, wallHit)
    ensures h.side != 0 ==> w == (wallHit, (CrossedLine(h.mapY, stepY) + stepY) as real)
  {
    if h.side == 0 then (h.mapX as real + (if stepX > 0 then 1.0 else 0.0), wallHit)
    else (wallHit, h.mapY as real + (if stepY > 0 then 1.0 else 0.0))
  }

  /** A ray from x = 2.5 along +x that hits the wall cell x = 5 crosses
      the grid line x = 5 but takes its light at x = 6. */
  lemma WallWorldBehindHit(wallHit: real)
    ensures CrossedLine(5, 1) == 5
    ensures WallWorld(Hit(5, 2, 0), 1, 1, wallHit).0 == 6.0
  {
  }

  /** The side-darkening factor of y-side hits. */
  const SideShade := 0.7

  /** The column's light factors: the ambient term plus the cached
      lights at the wall point with a light manager, and 1 without one;
      a y-side hit multiplies them by 0.7. */
  function ColumnFactors(light: Option<LightView>, side: int, wx: real, wy: real,
                         falloff: (real, real) -> real): (f: Rgb)
    requires light.Some? ==> light.value.Indexes()
    ensures light.None? && side != 1 ==> f == Rgb(1.0, 1.0, 1.0)
    ensures light.None? && side == 1 ==> f == Rgb(SideShade, SideShade, SideShade)
  {
    var t := if light.Some? then
               TotalLight(light.value.lights, light.value.cache, AmbientStart(light.value), wx, wy, falloff)
             else Rgb(1.0, 1.0, 1.0);
    if side == 1 then Rgb(t.r * SideShade, t.g * SideShade, t.b * SideShade) else t
  }

  /** A y-side column's factors are the x-side factors times 0.7; with a
      light manager the x-side factors are the ambient term plus the cached
      lights at the wall point. */
  lemma YSideShade(light: Option<LightView>, wx: real, wy: real, falloff: (real, real) -> real)
    requires light.Some? ==> light.value.Indexes()
    ensures var g := ColumnFactors(light, 0, wx, wy, falloff);
            ColumnFactors(light, 1, wx, wy, falloff) == Rgb(g.r * SideShade, g.g * SideShade, g.b * SideShade)
    ensures light.Some? ==>
              ColumnFactors(light, 0, wx, wy, falloff)
              == TotalLight(light.value.lights, light.value.cache, AmbientStart(light.value), wx, wy, falloff)
  {
  }

  /** The pixel written for one texel: lit by the column factors with a
      light manager, the texel itself without one. */
  function WallPixel(texel: Pixel, lit: bool, f: Rgb): Pixel
  {
    if lit then LitPixel(texel, f.r, f.g, f.b) else texel
  }

  /** Without a light manager the texel is written unchanged on both
      sides: the 0.7 side factor has no visible effect then. */
  lemma UnlitWallIsTexel(texel: Pixel, side: int, wx: real, wy: real, falloff: (real, real) -> real)
    ensures WallPixel(texel, false, ColumnFactors(None, side, wx, wy, falloff)) == texel
  {
  }

  /** With a light manager and non-negative factors each channel is
      min(255, floor(c * factor)) and alpha is copied. */
  lemma LitWallChannels(texel: Pixel, f: Rgb)
    requires f.r >= 0.0 && f.g >= 0.0 && f.b >= 0.0
    ensures var p := WallPixel(texel, true, f);
            && p.alpha == texel.alpha
            && p.red == Min255((texel.red as real * f.r).Floor)
            && p.green == Min255((texel.green as real * f.g).Floor)
            && p.blue == Min255((texel.blue as real * f.b).Floor)
  {
    LitPixelChannels(texel, f.r, f.g, f.b);
  }
}
