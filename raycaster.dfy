/** The renderer: a screen buffer of `width * height` pixels, row by row,
    and an optional light manager. A frame is drawn in two passes: floor
    and ceiling in 2 x 2 blocks with a grey horizon, then one textured wall
    stripe per screen column found by the grid walk. The floating-point
    quantities of a frame (the floor points sampled, each column's wall
    height and hit coordinate, the attenuation curve) are given as
    functions; all integer decisions are modelled. */
module Raycaster {
  import opened Wrappers
  import opened CArith
  import opened Pixels
  import opened Grid
  import opened Textures
  import opened Lighting
  import opened Players
  import opened Shading
  import opened Dda
  import opened WallColumn

  /** The factor `raycaster_render` darkens the ceiling by. */
  const CeilingShade := 0.8

  /** What the frame reads of the player. */
  datatype Camera = Camera(x: real, y: real, dirX: real, dirY: real, planeX: real, planeY: real)

  /** The floating-point parts of one frame: the attenuation curve, the
      world point (floor_x, floor_y) sampled at a sample row and column, and
      the wall geometry of a column given the wall cell its ray hit. */
  datatype Oracles = Oracles(falloff: (real, real) -> real,
                             floorPoint: (int, int) -> (real, real),
                             geometry: (int, Hit) -> ColumnGeometry)

  ghost predicate LightOk(light: Option<LightView>)
  {
    light.Some? ==> light.value.Indexes()
  }

  /** A colour lit at a world point when there is a light manager. */
  function Shade(light: Option<LightView>, falloff: (real, real) -> real, wx: real, wy: real, c: Pixel): Pixel
    requires LightOk(light)
  {
    if light.Some? then Composite(light.value, wx, wy, c, falloff) else c
  }

  /** The texel under the floor or ceiling sample at sample row `sy` and
      column `sx`, before lighting: the cell under the sampled world point
      gives the texture (its ceiling texture above h / 2, its floor texture
      from there on), the fractional parts of the point scaled to 64 and
      masked give the texel. */
  function SampleTexel(mv: MapView, tv: seq<Option<TexturePixels>>, o: Oracles, h: int, sy: int, sx: int): Pixel
    requires mv.Valid()
  {
    var (fx, fy) := o.floorPoint(sy, sx);
    var cellX := Trunc(fx);
    var cellY := Trunc(fy);
    var texX := Low6(Trunc(TextureSize as real * (fx - cellX as real)));
    var texY := Low6(Trunc(TextureSize as real * (fy - cellY as real)));
    var id := if sy < h / 2 then mv.CeilingTexture(cellX, cellY) else mv.FloorTexture(cellX, cellY);
    GetPixelFromTexture(PixelsOf(tv, id), texX, texY)
  }

  /** The colour of a floor or ceiling sample: its texel, lit at the
      sampled world point when a light manager is present; ceiling samples
      (rows above h / 2) are then darkened by 0.8. */
  function FloorSample(mv: MapView, tv: seq<Option<TexturePixels>>, light: Option<LightView>, o: Oracles,
                       h: int, sy: int, sx: int): Pixel
    requires mv.Valid() && LightOk(light)
  {
    var (fx, fy) := o.floorPoint(sy, sx);
    var c := Shade(light, o.falloff, fx, fy, SampleTexel(mv, tv, o, h, sy, sx));
    if sy < h / 2 then Darken(c, CeilingShade) else c
  }

  /** What the first pass leaves at (x, y): every pixel shows the sample
      of the even row and column at or before it; the two rows starting at
      h / 2, when h / 2 is even, are the grey horizon. */
  function FloorCeilingPixel(mv: MapView, tv: seq<Option<TexturePixels>>, light: Option<LightView>, o: Oracles,
                             h: int, x: int, y: int): Pixel
    requires mv.Valid() && LightOk(light)
  {
    var sy := y - y % 2;
    if sy - h / 2 == 0 then Grey else FloorSample(mv, tv, light, o, h, sy, x - x % 2)
  }

  /** Every pixel of the 2 x 2 block at an even sample row and column
      away from the horizon shows that one sample. */
  lemma BlockShowsSample(mv: MapView, tv: seq<Option<TexturePixels>>, light: Option<LightView>, o: Oracles,
                         h: int, x: int, y: int, x': int, y': int)
    requires mv.Valid() && LightOk(light)
    requires 0 <= x && x % 2 == 0 && 0 <= y && y % 2 == 0 && y - h / 2 != 0
    requires x <= x' < x + 2 && y <= y' < y + 2
    ensures FloorCeilingPixel(mv, tv, light, o, h, x', y') == FloorSample(mv, tv, light, o, h, y, x)
  {
    EvenBase(x, x');
    EvenBase(y, y');
  }

  lemma EvenBase(b: int, v: int)
    requires 0 <= b && b % 2 == 0 && b <= v < b + 2
    ensures v - v % 2 == b
  {
  }

  /** Both rows of the pair starting at h / 2 are the horizon. */
  lemma HorizonRows(mv: MapView, tv: seq<Option<TexturePixels>>, light: Option<LightView>, o: Oracles,
                    h: int, x: int, y: int, y': int)
    requires mv.Valid() && LightOk(light)
    requires 0 <= y && y % 2 == 0 && y - h / 2 == 0 && y <= y' < y + 2
    ensures FloorCeilingPixel(mv, tv, light, o, h, x, y') == Grey
  {
    EvenBase(y, y');
  }

  /** The ray direction of screen column x: the view direction plus the
      camera plane scaled by camera_x = 2x / w - 1. */
  function RayDir(cam: Camera, w: int, x: int): (real, real)
    requires w > 0
  {
    var cameraX := 2.0 * x as real / w as real - 1.0;
    (cam.dirX + cam.planeX * cameraX, cam.dirY + cam.planeY * cameraX)
  }

  /** Everything one wall column needs: its rows [drawStart, drawEnd), the
      wall texture, the texture column, the texture position before the
      first row and its step, whether it is lit, and its light factors. */
  datatype ColumnPlan = ColumnPlan(hit: Hit, drawStart: int, drawEnd: int, tex: Option<TexturePixels>,
                                   texX: int, texPos0: real, step: real, lit: bool, factors: Rgb)

  /** The plan of column x: the walk from the player's cell along the
      column's ray, the clipped stripe of the given height, the texture of
      the wall cell hit, and the light at the world point hit. */
  function PlanColumn(mv: MapView, tv: seq<Option<TexturePixels>>, light: Option<LightView>, o: Oracles, cam: Camera,
                      w: int, h: int, x: int): (p: ColumnPlan)
    requires mv.Valid() && LightOk(light) && w > 0 && h >= 0
    ensures mv.IsWall(p.hit.mapX, p.hit.mapY)
    ensures 0 <= p.drawStart && p.drawEnd <= h - 1 && 0 <= p.texX < TextureSize
    ensures p.tex == PixelsOf(tv, mv.WallTexture(p.hit.mapX, p.hit.mapY)) && p.lit == light.Some?
  {
    var (rdx, rdy) := RayDir(cam, w, x);
    var r := Setup(cam.x, cam.y, rdx, rdy);
    var hit := WalkFrom(mv, r);
    var g := o.geometry(x, hit);
    var (ds, de) := Clip(g.lineHeight, h);
    var (wx, wy) := WallWorld(hit, r.stepX, r.stepY, g.wallHit);
    ColumnPlan(hit, ds, de, PixelsOf(tv, mv.WallTexture(hit.mapX, hit.mapY)),
               TexX(g.wallHit, hit.side, rdx, rdy), TexPosStart(ds, h, g.lineHeight), TexStep(g.lineHeight),
               light.Some?, ColumnFactors(light, hit.side, wx, wy, o.falloff))
  }

  /** The pixel of a stripe at row y: the texel at the stripe's texture
      column and the row reached by `y - drawStart` steps, lit by the
      column's factors. */
  function WallPixelAt(p: ColumnPlan, y: int): Pixel
    requires p.drawStart <= y
  {
    WallPixel(GetPixelFromTexture(p.tex, p.texX, TexY(TexPosAt(p.texPos0, p.step, y - p.drawStart))),
              p.lit, p.factors)
  }

  /** Row y of a column with plan p drawn over the value `under`. */
  function Covered(p: ColumnPlan, y: int, under: Pixel): Pixel
  {
    if p.drawStart <= y < p.drawEnd then WallPixelAt(p, y) else under
  }

  /** The finished frame at (x, y): the wall stripe of column x where it
      covers row y, the floor and ceiling pass elsewhere. */
  function FramePixel(mv: MapView, tv: seq<Option<TexturePixels>>, light: Option<LightView>, o: Oracles, cam: Camera,
                      w: int, h: int, x: int, y: int): Pixel
    requires mv.Valid() && LightOk(light) && w > 0 && h >= 0
  {
    Covered(PlanColumn(mv, tv, light, o, cam, w, h, x), y, FloorCeilingPixel(mv, tv, light, o, h, x, y))
  }

  /** Without a light manager a floor sample is its texel and a ceiling
      sample its texel darkened by 0.8. */
  lemma UnlitSample(mv: MapView, tv: seq<Option<TexturePixels>>, o: Oracles, h: int, sy: int, sx: int)
    requires mv.Valid()
    ensures var t := SampleTexel(mv, tv, o, h, sy, sx);
            FloorSample(mv, tv, None, o, h, sy, sx) == if sy < h / 2 then Darken(t, CeilingShade) else t
  {
  }

  /** When h / 2 is odd no sample row is h / 2, so there is no grey
      horizon: every pixel shows the sample of its 2 x 2 block. */
  lemma NoHorizonWhenOdd(mv: MapView, tv: seq<Option<TexturePixels>>, light: Option<LightView>, o: Oracles,
                         h: int, x: int, y: int)
    requires mv.Valid() && LightOk(light)
    requires (h / 2) % 2 == 1 && 0 <= y
    ensures FloorCeilingPixel(mv, tv, light, o, h, x, y) == FloorSample(mv, tv, light, o, h, y - y % 2, x - x % 2)
  {
    var sy := y - y % 2;
    assert sy % 2 == 0;
    assert sy != h / 2;
  }

  /** A column's stripe covers rows below h - 1 only, so the last screen
      row always shows the floor pass. */
  lemma LastRowIsFloor(mv: MapView, tv: seq<Option<TexturePixels>>, light: Option<LightView>, o: Oracles, cam: Camera,
                       w: int, h: int, x: int)
    requires mv.Valid() && LightOk(light) && w > 0 && h >= 1
    ensures FramePixel(mv, tv, light, o, cam, w, h, x, h - 1) == FloorCeilingPixel(mv, tv, light, o, h, x, h - 1)
  {
    var p := PlanColumn(mv, tv, light, o, cam, w, h, x);
    assert !(p.drawStart <= h - 1 < p.drawEnd);
  }

  /** Row y of a stripe shows the texel at the stripe's texture column and
      texture row `TexY(texPos0 + (y - drawStart) * step)`, passed through
      the column's lighting (`WallPixel`). */
  lemma StripeTexel(p: ColumnPlan, y: int)
    requires p.drawStart <= y
    ensures WallPixelAt(p, y)
            == WallPixel(GetPixelFromTexture(p.tex, p.texX, TexY(p.texPos0 + (y - p.drawStart) as real * p.step)),
                         p.lit, p.factors)
  {
    var k: nat := y - p.drawStart;
    var a := TexPosAt(p.texPos0, p.step, k);
    TexPosAtClosed(p.texPos0, p.step, k);
    assert (y - p.drawStart) as real == k as real;
    StripeAtPos(p, y, a);
  }

  lemma StripeAtPos(p: ColumnPlan, y: int, a: real)
    requires p.drawStart <= y && a == TexPosAt(p.texPos0, p.step, y - p.drawStart)
    requires a == p.texPos0 + (y - p.drawStart) as real * p.step
    ensures WallPixelAt(p, y)
            == WallPixel(GetPixelFromTexture(p.tex, p.texX, TexY(p.texPos0 + (y - p.drawStart) as real * p.step)),
                         p.lit, p.factors)
  {
    assert WallPixelAt(p, y) == WallPixel(GetPixelFromTexture(p.tex, p.texX, TexY(a)), p.lit, p.factors);
  }

  /** The row-major index of (x, y) lies inside a `w * h` buffer. */
  lemma IndexInRange(w: int, h: int, x: int, y: int)
    requires 0 <= x < w && 0 <= y < h
    ensures 0 <= y * w + x < w * h
  {
    assert y * w <= (h - 1) * w;
  }

  /** Distinct pixels have distinct indices. */
  lemma IndexDistinct(w: int, x1: int, y1: int, x2: int, y2: int)
    requires 0 <= x1 < w && 0 <= x2 < w && 0 <= y1 && 0 <= y2 && (x1 != x2 || y1 != y2)
    ensures y1 * w + x1 != y2 * w + x2
  {
    if y1 < y2 {
      assert (y1 + 1) * w <= y2 * w;
    } else if y2 < y1 {
      assert (y2 + 1) * w <= y1 * w;
    }
  }

  /** `mv` and `tv` are the current contents of the map and the texture
      table. */
  ghost predicate Viewed(m: Map, tm: TextureManager, mv: MapView, tv: seq<Option<TexturePixels>>)
    reads m, m.layers, tm, tm.textures, tm.pixels, tm.loaded
  {
    m.Valid() && tm.Valid() && mv == m.View() && tv == tm.View()
  }

  class Renderer {
    const width: int
    const height: int
    const buffer: array<Pixel>
    var lightManager: LightManager?

    predicate Valid()
    {
      0 <= width && 0 <= height && buffer.Length == width * height
    }

    /** The pixel at column x, row y. */
    function At(x: int, y: int): Pixel
      reads buffer
      requires Valid() && 0 <= x < width && 0 <= y < height
    {
      IndexInRange(width, height, x, y);
      buffer[y * width + x]
    }

    /** What the frame reads of the light manager, when there is one. */
    ghost function LightOf(): (l: Option<LightView>)
      reads this, if lightManager == null then {} else {lightManager, lightManager.lights, lightManager.activeLights}
      requires lightManager != null ==> lightManager.Valid()
      ensures LightOk(l)
    {
      if lightManager == null then None else Some(lightManager.View())
    }

    ghost predicate LightReady()
      reads this, if lightManager == null then {} else {lightManager, lightManager.lights, lightManager.activeLights}
    {
      lightManager != null ==> lightManager.Valid()
    }

    /** `raycaster_init`: a fresh `width * height` buffer and no light
        manager. */
    constructor (w: int, h: int)
      requires w >= 0 && h >= 0
      ensures width == w && height == h && lightManager == null && Valid()
      ensures fresh(buffer)
    {
      width := w;
      height := h;
      buffer := new Pixel[w * h];
      lightManager := null;
    }

    /** `raycaster_set_lighting`: the frames that follow are lit by `lm`,
        or drawn unlit when it is null. */
    method SetLighting(lm: LightManager?)
      modifies this`lightManager
      ensures lightManager == lm
    {
      lightManager := lm;
    }

    /** `raycaster_clear_screen`: every pixel becomes `color`. */
    method ClearScreen(color: Pixel)
      requires Valid()
      modifies buffer
      ensures forall i :: 0 <= i < buffer.Length ==> buffer[i] == color
      ensures forall x, y :: 0 <= x < width && 0 <= y < height ==> At(x, y) == color
    {
      for i := 0 to width * height
        invariant forall k :: 0 <= k < i ==> buffer[k] == color
      {
        buffer[i] := color;
      }
      forall x, y | 0 <= x < width && 0 <= y < height
        ensures At(x, y) == color
      {
        IndexInRange(width, height, x, y);
      }
    }

    /** One pixel write; every other pixel is kept. */
    method SetAt(x: int, y: int, v: Pixel)
      requires Valid() && 0 <= x < width && 0 <= y < height
      modifies buffer
      ensures At(x, y) == v
      ensures forall x', y' :: 0 <= x' < width && 0 <= y' < height && (x' != x || y' != y) ==>
                At(x', y') == old(At(x', y'))
    {
      IndexInRange(width, height, x, y);
      buffer[y * width + x] := v;
      forall x', y' | 0 <= x' < width && 0 <= y' < height && (x' != x || y' != y)
        ensures At(x', y') == old(At(x', y'))
      {
        IndexDistinct(width, x, y, x', y');
        IndexInRange(width, height, x', y');
      }
    }

    /** The rectangle [x0, x1) x [y0, y1) becomes `color`, written column
        by column; every other pixel is kept. */
    method FillRect(x0: int, x1: int, y0: int, y1: int, color: Pixel)
      requires Valid() && 0 <= x0 <= x1 <= width && 0 <= y0 <= y1 <= height
      modifies buffer
      ensures forall x', y' :: 0 <= x' < width && 0 <= y' < height ==>
                At(x', y') == if x0 <= x' < x1 && y0 <= y' < y1 then color else old(At(x', y'))
    {
      for x := x0 to x1
        invariant forall x', y' :: 0 <= x' < width && 0 <= y' < height ==>
                    At(x', y') == if x0 <= x' < x && y0 <= y' < y1 then color else old(At(x', y'))
      {
        for y := y0 to y1
          invariant forall x', y' :: 0 <= x' < width && 0 <= y' < height ==>
                      At(x', y') == if (x0 <= x' < x && y0 <= y' < y1) || (x' == x && y0 <= y' < y)
                                    then color else old(At(x', y'))
        {
          SetAt(x, y, color);
        }
      }
    }

    /** The texel under one floor or ceiling sample, read through the
        map's texture lookup and the texture table. */
    method FetchTexel(m: Map, tm: TextureManager, ghost mv: MapView, ghost tv: seq<Option<TexturePixels>>,
                      o: Oracles, sy: int, sx: int) returns (texel: Pixel)
      requires Viewed(m, tm, mv, tv)
      ensures texel == SampleTexel(mv, tv, o, height, sy, sx)
    {
      var (fx, fy) := o.floorPoint(sy, sx);
      var cellX := Trunc(fx);
      var cellY := Trunc(fy);
      var texX := Low6(Trunc(TextureSize as real * (fx - cellX as real)));
      var texY := Low6(Trunc(TextureSize as real * (fy - cellY as real)));
      var id := if sy < height / 2 then m.CeilingTexture(cellX, cellY) else m.FloorTexture(cellX, cellY);
      m.ViewTextures(mv, cellX, cellY);
      tm.GetPixelsView(id);
      texel := GetPixelFromTexture(tm.GetPixels(id), texX, texY);
    }

    /** The colour of one floor or ceiling sample: the texel of the cell
        under the sampled point, lit through the light manager when there
        is one, darkened by 0.8 on a ceiling row. */
    method SampleColor(ghost light: Option<LightView>, m: Map, tm: TextureManager,
                       ghost mv: MapView, ghost tv: seq<Option<TexturePixels>>,
                       o: Oracles, sy: int, sx: int) returns (c: Pixel)
      requires Viewed(m, tm, mv, tv) && LightReady() && light == LightOf()
      ensures c == FloorSample(mv, tv, light, o, height, sy, sx)
    {
      var (fx, fy) := o.floorPoint(sy, sx);
      var texel := FetchTexel(m, tm, mv, tv, o, sy, sx);
      c := texel;
      if lightManager != null {
        c := lightManager.CalculatePixelColor(fx, fy, texel, o.falloff);
      }
      assert c == Shade(light, o.falloff, fx, fy, texel);
      if sy < height / 2 {
        c := Darken(c, CeilingShade);
      }
    }

    /** One floor or ceiling sample written to its 2 x 2 block, clipped
        to the screen. */
    method SampleBlock(ghost light: Option<LightView>, m: Map, tm: TextureManager,
                       ghost mv: MapView, ghost tv: seq<Option<TexturePixels>>, o: Oracles, x: int, y: int)
      requires Valid() && Viewed(m, tm, mv, tv) && LightReady() && light == LightOf()
      requires 0 <= x < width && x % 2 == 0 && 0 <= y < height && y % 2 == 0 && y - height / 2 != 0
      modifies buffer
      ensures forall x', y' :: 0 <= x' < width && 0 <= y' < height ==>
                At(x', y') == if x <= x' < x + 2 && y <= y' < y + 2
                              then FloorCeilingPixel(mv, tv, light, o, height, x', y')
                              else old(At(x', y'))
    {
      var c := SampleColor(light, m, tm, mv, tv, o, y, x);
      FillRect(x, if x + 2 < width then x + 2 else width, y, if y + 2 < height then y + 2 else height, c);
      forall x', y' | 0 <= x' < width && 0 <= y' < height && x <= x' < x + 2 && y <= y' < y + 2
        ensures At(x', y') == FloorCeilingPixel(mv, tv, light, o, height, x', y')
      {
        BlockShowsSample(mv, tv, light, o, height, x, y, x', y');
      }
    }

    /** One sampled row pair away from the horizon: each sample fills the
        2 x 2 block at its even column. */
    method SampleRow(ghost light: Option<LightView>, m: Map, tm: TextureManager,
                     ghost mv: MapView, ghost tv: seq<Option<TexturePixels>>, o: Oracles, y: int)
      requires Valid() && Viewed(m, tm, mv, tv) && LightReady() && light == LightOf()
      requires 0 <= y < height && y % 2 == 0 && y - height / 2 != 0
      modifies buffer
      ensures forall x', y' :: 0 <= x' < width && 0 <= y' < height ==>
                At(x', y') == if y <= y' < y + 2 then FloorCeilingPixel(mv, tv, light, o, height, x', y')
                              else old(At(x', y'))
    {
      var x := 0;
      while x < width
        invariant 0 <= x <= width + 1 && x % 2 == 0
        invariant forall x', y' :: 0 <= x' < width && 0 <= y' < height ==>
                    At(x', y') == if y <= y' < y + 2 && x' < x then FloorCeilingPixel(mv, tv, light, o, height, x', y')
                                  else old(At(x', y'))
      {
        SampleBlock(light, m, tm, mv, tv, o, x, y);
        x := x + 2;
      }
    }

    /** The row pair starting at h / 2 is filled with grey. */
    method HorizonRow(ghost light: Option<LightView>, ghost mv: MapView, ghost tv: seq<Option<TexturePixels>>,
                      o: Oracles, y: int)
      requires Valid() && mv.Valid() && LightOk(light)
      requires 0 <= y < height && y % 2 == 0 && y - height / 2 == 0
      modifies buffer
      ensures forall x', y' :: 0 <= x' < width && 0 <= y' < height ==>
                At(x', y') == if y <= y' < y + 2 then FloorCeilingPixel(mv, tv, light, o, height, x', y')
                              else old(At(x', y'))
    {
      FillRect(0, width, y, if y + 2 < height then y + 2 else height, Grey);
      forall x', y' | 0 <= x' < width && 0 <= y' < height && y <= y' < y + 2
        ensures At(x', y') == FloorCeilingPixel(mv, tv, light, o, height, x', y')
      {
        HorizonRows(mv, tv, light, o, height, x', y, y');
      }
    }

    /** The first pass of `raycaster_render`: rows in pairs from the top;
        the pair starting at h / 2 is the grey horizon, every other pair is
        sampled in 2 x 2 blocks. Afterwards every pixel is its
        `FloorCeilingPixel`. */
    method FloorCeilingPass(ghost light: Option<LightView>, m: Map, tm: TextureManager,
                            ghost mv: MapView, ghost tv: seq<Option<TexturePixels>>, o: Oracles)
      requires Valid() && Viewed(m, tm, mv, tv) && LightReady() && light == LightOf()
      modifies buffer
      ensures forall x, y :: 0 <= x < width && 0 <= y < height ==>
                At(x, y) == FloorCeilingPixel(mv, tv, light, o, height, x, y)
    {
      var y := 0;
      while y < height
        invariant 0 <= y <= height + 1 && y % 2 == 0
        invariant forall x', y' :: 0 <= x' < width && 0 <= y' < height && y' < y ==>
                    At(x', y') == FloorCeilingPixel(mv, tv, light, o, height, x', y')
      {
        label BeforeRows:
        if y - height / 2 == 0 {
          HorizonRow(light, mv, tv, o, y);
        } else {
          SampleRow(light, m, tm, mv, tv, o, y);
        }
        forall x', y' | 0 <= x' < width && 0 <= y' < height && y' < y
          ensures At(x', y') == FloorCeilingPixel(mv, tv, light, o, height, x', y')
        {
          assert At(x', y') == old@BeforeRows(At(x', y'));
        }
        y := y + 2;
      }
    }

    /** The light factors of a column, read through the light manager
        when there is one. */
    method ColumnLight(ghost light: Option<LightView>, side: int, wx: real, wy: real, falloff: (real, real) -> real) returns (f: Rgb)
      requires LightReady() && light == LightOf()
      ensures f == ColumnFactors(light, side, wx, wy, falloff)
    {
      if lightManager != null {
        f := lightManager.AccumulateLights(wx, wy, falloff);
      } else {
        f := Rgb(1.0, 1.0, 1.0);
      }
      if side == 1 {
        f := Rgb(f.r * SideShade, f.g * SideShade, f.b * SideShade);
      }
    }

    /** The plan of one column, computed as the column loop of
        `raycaster_render` does before it draws: the ray, the walk, the
        stripe, the texture column and the light. */
    method ComputePlan(ghost light: Option<LightView>, m: Map, tm: TextureManager,
                       ghost mv: MapView, ghost tv: seq<Option<TexturePixels>>,
                       o: Oracles, cam: Camera, x: int) returns (p: ColumnPlan)
      requires Valid() && Viewed(m, tm, mv, tv) && LightReady() && light == LightOf() && 0 <= x < width
      ensures p == PlanColumn(mv, tv, light, o, cam, width, height, x)
    {
      var (rdx, rdy) := RayDir(cam, width, x);
      var r := Setup(cam.x, cam.y, rdx, rdy);
      var hit;
      ghost var steps;
      hit, steps := CastRay(m, r);
      var g := o.geometry(x, hit);
      var (ds, de) := Clip(g.lineHeight, height);
      var id := m.WallTexture(hit.mapX, hit.mapY);
      m.ViewTextures(mv, hit.mapX, hit.mapY);
      tm.GetPixelsView(id);
      var tex := tm.GetPixels(id);
      var texX := TexX(g.wallHit, hit.side, rdx, rdy);
      var (wx, wy) := WallWorld(hit, r.stepX, r.stepY, g.wallHit);
      var f := ColumnLight(light, hit.side, wx, wy, o.falloff);
      p := ColumnPlan(hit, ds, de, tex, texX, TexPosStart(ds, height, g.lineHeight), TexStep(g.lineHeight),
                      lightManager != null, f);
    }

    /** The stripe of a planned column: rows [drawStart, drawEnd) of
        column x receive the stripe's pixels, `tex_pos` advancing by one
        step per row; nothing else changes. */
    method DrawStripe(x: int, p: ColumnPlan)
      requires Valid() && 0 <= x < width && 0 <= p.drawStart && p.drawEnd <= height
      modifies buffer
      ensures forall x', y' :: 0 <= x' < width && 0 <= y' < height ==>
                At(x', y') == if x' == x then Covered(p, y', old(At(x', y'))) else old(At(x', y'))
    {
      var texPos := p.texPos0;
      var y := p.drawStart;
      while y < p.drawEnd
        invariant p.drawStart <= y <= (if p.drawStart <= p.drawEnd then p.drawEnd else p.drawStart)
        invariant texPos == TexPosAt(p.texPos0, p.step, y - p.drawStart)
        invariant forall x', y' :: 0 <= x' < width && 0 <= y' < height ==>
                    At(x', y') == if x' == x && p.drawStart <= y' < y then WallPixelAt(p, y')
                                  else old(At(x', y'))
      {
        var texY := TexY(texPos);
        texPos := texPos + p.step;
        var color := GetPixelFromTexture(p.tex, p.texX, texY);
        if p.lit {
          color := LitPixel(color, p.factors.r, p.factors.g, p.factors.b);
        }
        assert color == WallPixelAt(p, y);
        SetAt(x, y, color);
        y := y + 1;
      }
    }

    /** `raycaster_render`: the floor and ceiling pass, then one wall
        column per screen column from left to right. Every pixel of the
        finished frame is its `FramePixel`: the wall stripe of its column
        where that covers it, the floor, ceiling or horizon otherwise. */
    method Render(player: Player, m: Map, tm: TextureManager, o: Oracles)
      requires Valid() && m.Valid() && tm.Valid() && LightReady()
      modifies buffer
      ensures forall x, y :: 0 <= x < width && 0 <= y < height ==>
                At(x, y) == FramePixel(m.View(), tm.View(), LightOf(), o,
                                       Camera(player.x, player.y, player.dirX, player.dirY, player.planeX, player.planeY),
                                       width, height, x, y)
    {
      var cam := Camera(player.x, player.y, player.dirX, player.dirY, player.planeX, player.planeY);
      ghost var light, mv, tv := LightOf(), m.View(), tm.View();
      FloorCeilingPass(light, m, tm, mv, tv, o);
      for x := 0 to width
        invariant forall x', y' :: 0 <= x' < width && 0 <= y' < height ==>
                    At(x', y') == if x' < x then FramePixel(mv, tv, light, o, cam, width, height, x', y')
                                  else FloorCeilingPixel(mv, tv, light, o, height, x', y')
      {
        var p := ComputePlan(light, m, tm, mv, tv, o, cam, x);
        DrawStripe(x, p);
      }
    }
  }
}
