/** The light manager: a fixed array of point-light slots, a count of the
    slots in use, an ambient term and a cache of the indices of the active
    slots, together with the per-pixel composite the renderer calls. */
module Lighting {
  import opened Pixels
  import opened CArith
  import opened Wrappers

  const MaxLights := 32
  /** Lights whose attenuation falls below this are skipped. */
  const MinLightContribution := 0.05

  datatype Light = Light(
    x: real, y: real,
    r: real, g: real, b: real,
    intensity: real,
    radius: real,
    radiusSquared: real,
    active: bool)

  /** The contents `lighting_init` writes into every slot. */
  const DefaultSlot := Light(0.0, 0.0, 1.0, 1.0, 1.0, 1.0, 5.0, 25.0, false)

  /** Light accumulated per colour channel. */
  datatype Rgb = Rgb(r: real, g: real, b: real)

  /** What the composite reads of a manager: the slots, the cached indices and the ambient term. */
  datatype LightView = LightView(
    lights: seq<Light>, cache: seq<int>,
    ambientR: real, ambientG: real, ambientB: real, ambientIntensity: real)
  {
    ghost predicate Indexes() {
      forall k :: 0 <= k < |cache| ==> 0 <= cache[k] < |lights|
    }
  }

  /** The indices 0, 1, ..., n-1. */
  function Range(n: nat): (r: seq<int>)
    ensures |r| == n && forall k :: 0 <= k < n ==> r[k] == k
  {
    seq(n, k => k)
  }

  // ---------------------------------------------------------------------
  // The active-light cache, as a function of the slots

  /** The indices below `n` of active slots, in ascending order: what
      `lighting_update_cache` stores in `active_lights`. */
  function ActiveIndices(s: seq<Light>, n: nat): (r: seq<int>)
    requires n <= |s|
    ensures |r| <= n
    ensures forall k :: 0 <= k < |r| ==> 0 <= r[k] < n
  {
    if n == 0 then [] else ActiveIndices(s, n - 1) + (if s[n - 1].active then [n - 1] else [])
  }

  /** The cache lists its indices in strictly ascending order. */
  lemma {:induction false} ActiveIndicesAscending(s: seq<Light>, n: nat)
    requires n <= |s|
    ensures forall j, k :: 0 <= j < k < |ActiveIndices(s, n)| ==> ActiveIndices(s, n)[j] < ActiveIndices(s, n)[k]
  {
    if n > 0 {
      ActiveIndicesAscending(s, n - 1);
    }
  }

  /** An index is in the cache exactly when it is below `n` and its slot is active. */
  lemma {:induction false} ActiveIndicesMembers(s: seq<Light>, n: nat, i: int)
    requires n <= |s|
    ensures i in ActiveIndices(s, n) <==> 0 <= i < n && s[i].active
  {
    if n > 0 {
      ActiveIndicesMembers(s, n - 1, i);
    }
  }

  /** When every slot below `n` is active the cache is 0, 1, ..., n-1. */
  lemma {:induction false} ActiveIndicesAllActive(s: seq<Light>, n: nat)
    requires n <= |s|
    requires forall i :: 0 <= i < n ==> s[i].active
    ensures ActiveIndices(s, n) == Range(n)
  {
    if n > 0 {
      ActiveIndicesAllActive(s, n - 1);
      assert Range(n - 1) + [n - 1] == Range(n);
    }
  }

  // ---------------------------------------------------------------------
  // Attenuation and the composite

  /** `lighting_calculate_distance_attenuation_fast`: zero outside the
      radius; inside it, the curve `(1 - sqrt(d2)/sqrt(r2))^2`, which the
      model takes as the parameter `falloff` (its shape over exact square
      roots is `Falloff` below). */
  function Attenuation(d2: real, r2: real, falloff: (real, real) -> real): (a: real)
    ensures d2 > r2 ==> a == 0.0
  {
    if d2 > r2 then 0.0 else falloff(d2, r2)
  }

  /** The attenuation curve for a distance and a positive radius. */
  function Falloff(dist: real, radius: real): (a: real)
    requires radius > 0.0
    ensures 0.0 <= dist <= radius ==> 0.0 <= a <= 1.0
  {
    var t := 1.0 - dist / radius;
    FalloffBounds(t);
    t * t
  }

  lemma FalloffBounds(t: real)
    ensures 0.0 <= t <= 1.0 ==> 0.0 <= t * t <= 1.0
  {
    if 0.0 <= t <= 1.0 {
      assert t * t <= t * 1.0;
    }
  }

  /** The attenuation parameter is the curve over exact square roots: at
      squared distance d * d and squared radius r * r it is Falloff(d, r). */
  ghost predicate CurveIs(falloff: (real, real) -> real)
  {
    forall d: real, r: real :: 0.0 < r && 0.0 <= d <= r ==> falloff(d * d, r * r) == Falloff(d, r)
  }

  /** With that parameter the attenuation is the curve inside the radius
      and zero beyond it, and always lies in [0, 1]. */
  lemma AttenuationIsFalloff(falloff: (real, real) -> real, d: real, r: real)
    requires CurveIs(falloff) && 0.0 < r && 0.0 <= d
    ensures d <= r ==> Attenuation(d * d, r * r, falloff) == Falloff(d, r)
    ensures r < d ==> Attenuation(d * d, r * r, falloff) == 0.0
    ensures 0.0 <= Attenuation(d * d, r * r, falloff) <= 1.0
  {
    if d <= r {
      SquareMonotone(d, r);
      assert falloff(d * d, r * r) == Falloff(d, r);
    } else {
      assert r * r < d * r < d * d;
    }
  }

  /** The curve is one at the light's centre and zero at its radius. */
  lemma FalloffEnds(radius: real)
    requires radius > 0.0
    ensures Falloff(0.0, radius) == 1.0 && Falloff(radius, radius) == 0.0
  {
  }

  /** The curve never increases with distance inside the radius. */
  lemma {:induction false} FalloffNonIncreasing(d1: real, d2: real, radius: real)
    requires radius > 0.0 && 0.0 <= d1 <= d2 <= radius
    ensures Falloff(d2, radius) <= Falloff(d1, radius)
  {
    DivMonotone(d1, d2, radius);
    DivMonotone(d2, radius, radius);
    assert radius / radius == 1.0;
    SquareMonotone(1.0 - d2 / radius, 1.0 - d1 / radius);
  }

  lemma SquareMonotone(x: real, y: real)
    requires 0.0 <= x <= y
    ensures x * x <= y * y
  {
    assert x * (y - x) >= 0.0;
    assert y * (y - x) >= 0.0;
  }

  lemma DivMonotone(a: real, b: real, r: real)
    requires r > 0.0 && a <= b
    ensures a / r <= b / r
  {
    assert b / r - a / r == (b - a) / r;
  }

  /** `dx * dx + dy * dy` from (wx, wy) to the light. */
  function DistanceSquared(l: Light, wx: real, wy: real): real
  {
    (wx - l.x) * (wx - l.x) + (wy - l.y) * (wy - l.y)
  }

  /** One cached light's contribution added to the running total, skipping
      a light outside its radius and one whose attenuation is negligible. */
  function AddContribution(t: Rgb, l: Light, wx: real, wy: real, falloff: (real, real) -> real): Rgb
  {
    var d2 := DistanceSquared(l, wx, wy);
    if d2 > l.radiusSquared then t
    else
      var a := Attenuation(d2, l.radiusSquared, falloff);
      if a < MinLightContribution then t
      else
        var c := l.intensity * a;
        Rgb(t.r + l.r * c, t.g + l.g * c, t.b + l.b * c)
  }

  /** The total light at (wx, wy): the start value (ambient colour times
      ambient intensity) plus the contributions of the lights named in
      `cache`, in cache order. */
  function TotalLight(ls: seq<Light>, cache: seq<int>, start: Rgb, wx: real, wy: real,
                      falloff: (real, real) -> real): Rgb
    requires forall k :: 0 <= k < |cache| ==> 0 <= cache[k] < |ls|
  {
    if cache == [] then start
    else
      var last := |cache| - 1;
      AddContribution(TotalLight(ls, cache[..last], start, wx, wy, falloff), ls[cache[last]], wx, wy, falloff)
  }

  /** The total reads only the slots the cache names. */
  lemma {:induction false} TotalLightReadsOnlyCache(ls1: seq<Light>, ls2: seq<Light>, cache: seq<int>,
                                                    start: Rgb, wx: real, wy: real, falloff: (real, real) -> real)
    requires forall k :: 0 <= k < |cache| ==> 0 <= cache[k] < |ls1| && 0 <= cache[k] < |ls2|
    requires forall k :: 0 <= k < |cache| ==> ls1[cache[k]] == ls2[cache[k]]
    ensures TotalLight(ls1, cache, start, wx, wy, falloff) == TotalLight(ls2, cache, start, wx, wy, falloff)
  {
    if cache != [] {
      var last := |cache| - 1;
      TotalLightReadsOnlyCache(ls1, ls2, cache[..last], start, wx, wy, falloff);
    }
  }

  /** A light out of range at (wx, wy), or too faint there. */
  ghost predicate Skipped(l: Light, wx: real, wy: real, falloff: (real, real) -> real)
  {
    var d2 := DistanceSquared(l, wx, wy);
    d2 > l.radiusSquared || falloff(d2, l.radiusSquared) < MinLightContribution
  }

  /** When every cached light is skipped, the total is the ambient start value. */
  lemma {:induction false} TotalLightAllSkipped(ls: seq<Light>, cache: seq<int>, start: Rgb, wx: real, wy: real,
                                                falloff: (real, real) -> real)
    requires forall k :: 0 <= k < |cache| ==> 0 <= cache[k] < |ls|
    requires forall k :: 0 <= k < |cache| ==> Skipped(ls[cache[k]], wx, wy, falloff)
    ensures TotalLight(ls, cache, start, wx, wy, falloff) == start
  {
    if cache != [] {
      var last := |cache| - 1;
      assert Skipped(ls[cache[last]], wx, wy, falloff);
      TotalLightAllSkipped(ls, cache[..last], start, wx, wy, falloff);
      assert TotalLight(ls, cache[..last], start, wx, wy, falloff) == start;
    }
  }

  /** The ambient term, channel by channel. */
  function AmbientStart(v: LightView): Rgb
  {
    Rgb(v.ambientR * v.ambientIntensity, v.ambientG * v.ambientIntensity, v.ambientB * v.ambientIntensity)
  }

  /** `lighting_apply_light_to_color_fast`: every colour channel scaled by
      its light factor times `intensity` with a rounding bias of 0.5; alpha
      is copied. With a non-negative factor each channel is therefore the
      scaled value rounded half up and saturated at 255 (ScaleChannelFloor). */
  function ApplyLightToColor(base: Pixel, lr: real, lg: real, lb: real, intensity: real): (c: Pixel)
    ensures c.alpha == base.alpha
    ensures c.red == ScaleChannel(base.red, lr * intensity, 0.5)
    ensures c.green == ScaleChannel(base.green, lg * intensity, 0.5)
    ensures c.blue == ScaleChannel(base.blue, lb * intensity, 0.5)
  {
    var r := ScaleChannel(base.red, lr * intensity, 0.5);
    var g := ScaleChannel(base.green, lg * intensity, 0.5);
    var b := ScaleChannel(base.blue, lb * intensity, 0.5);
    Rgba(r, g, b, base.alpha)
  }

  /** `lighting_calculate_pixel_color_fast` as a function of what it reads. */
  function Composite(v: LightView, wx: real, wy: real, base: Pixel, falloff: (real, real) -> real): Pixel
    requires v.Indexes()
  {
    var t := TotalLight(v.lights, v.cache, AmbientStart(v), wx, wy, falloff);
    ApplyLightToColor(base, t.r, t.g, t.b, 1.0)
  }

  /** The composite never changes alpha and, with no light reaching the
      point, is the base colour scaled by the ambient term. */
  lemma CompositeAlphaAndAmbient(v: LightView, wx: real, wy: real, base: Pixel, falloff: (real, real) -> real)
    requires v.Indexes()
    requires forall k :: 0 <= k < |v.cache| ==> Skipped(v.lights[v.cache[k]], wx, wy, falloff)
    ensures Composite(v, wx, wy, base, falloff).alpha == base.alpha
    ensures var s := AmbientStart(v);
            Composite(v, wx, wy, base, falloff) == ApplyLightToColor(base, s.r, s.g, s.b, 1.0)
  {
    TotalLightAllSkipped(v.lights, v.cache, AmbientStart(v), wx, wy, falloff);
  }

  /** The default ambient term (0.3, 0.3, 0.3) at intensity 0.2 with no
      lights maps the pixel (200, 100, 50, 255) to (12, 6, 3, 255). */
  lemma AmbientOnlyExample(ls: seq<Light>, wx: real, wy: real, falloff: (real, real) -> real)
    ensures Composite(LightView(ls, [], 0.3, 0.3, 0.3, 0.2), wx, wy, Rgba(200, 100, 50, 255), falloff)
            == Rgba(12, 6, 3, 255)
  {
    var c := Composite(LightView(ls, [], 0.3, 0.3, 0.3, 0.2), wx, wy, Rgba(200, 100, 50, 255), falloff);
    assert c.red == 12 && c.green == 6 && c.blue == 3 && c.alpha == 255;
    ChannelsDetermine(c, Rgba(12, 6, 3, 255));
  }

  /** A single light of intensity 2 sampled at its own centre, with the
      ambient switched off and the attenuation curve of `CurveIs`,
      doubles every channel, saturating at 255. */
  lemma SingleLightAtCentre(base: Pixel, radius: real, falloff: (real, real) -> real)
    requires radius > 0.0 && CurveIs(falloff)
    ensures var l := Light(5.0, 5.0, 1.0, 1.0, 1.0, 2.0, radius, radius * radius, true);
            var c := Composite(LightView([l], [0], 0.3, 0.3, 0.3, 0.0), 5.0, 5.0, base, falloff);
            && c.red == Min255(2 * base.red)
            && c.green == Min255(2 * base.green)
            && c.blue == Min255(2 * base.blue)
            && c.alpha == base.alpha
  {
    var l := Light(5.0, 5.0, 1.0, 1.0, 1.0, 2.0, radius, radius * radius, true);
    var v := LightView([l], [0], 0.3, 0.3, 0.3, 0.0);
    assert radius * radius > 0.0;
    FalloffEnds(radius);
    assert falloff(0.0 * 0.0, radius * radius) == Falloff(0.0, radius) == 1.0;
    assert TotalLight(v.lights, v.cache[..0], AmbientStart(v), 5.0, 5.0, falloff) == Rgb(0.0, 0.0, 0.0);
    assert TotalLight(v.lights, v.cache, AmbientStart(v), 5.0, 5.0, falloff) == Rgb(2.0, 2.0, 2.0);
  }

  // ---------------------------------------------------------------------
  // The manager

  class LightManager {
    const lights: array<Light>
    const activeLights: array<int>
    var count: int
    var ambientR: real
    var ambientG: real
    var ambientB: real
    var ambientIntensity: real
    var activeCount: int

    /** The fixed storage and the bound on `count`. */
    ghost predicate Shape()
      reads this
    {
      lights.Length == MaxLights && activeLights.Length == MaxLights && 0 <= count <= MaxLights
    }

    /** Every slot in use is active: `add` sets the flag and `remove`
        overwrites the removed slot by shifting. */
    ghost predicate LiveActive()
      reads this, lights
      requires Shape()
    {
      forall i :: 0 <= i < count ==> lights[i].active
    }

    /** The cache lists, in ascending order, exactly the active slots in use. */
    ghost predicate CacheValid()
      reads this, lights, activeLights
      requires Shape()
    {
      0 <= activeCount <= count && activeLights[..activeCount] == ActiveIndices(lights[..], count)
    }

    ghost predicate Valid()
      reads this, lights, activeLights
    {
      Shape() && LiveActive() && CacheValid()
    }

    /** What the composite reads. */
    ghost function View(): (v: LightView)
      reads this, lights, activeLights
      requires Valid()
      ensures v.Indexes()
    {
      LightView(lights[..], activeLights[..activeCount], ambientR, ambientG, ambientB, ambientIntensity)
    }

    /** A manager in the state `lighting_init` leaves. */
    constructor ()
      ensures Valid() && fresh(lights) && fresh(activeLights)
      ensures count == 0 && activeCount == 0
      ensures forall i :: 0 <= i < MaxLights ==> lights[i] == DefaultSlot && activeLights[i] == -1
      ensures ambientR == 0.3 && ambientG == 0.3 && ambientB == 0.3 && ambientIntensity == 0.2
    {
      lights := new Light[MaxLights];
      activeLights := new int[MaxLights];
      new;
      Init();
    }

    /** `lighting_init`: no lights, an empty cache, every slot reset to the
        default inactive light, every cache entry -1 and the default ambient. */
    method Init()
      requires lights.Length == MaxLights && activeLights.Length == MaxLights
      modifies this, lights, activeLights
      ensures Valid()
      ensures count == 0 && activeCount == 0
      ensures forall i :: 0 <= i < MaxLights ==> lights[i] == DefaultSlot && activeLights[i] == -1
      ensures ambientR == 0.3 && ambientG == 0.3 && ambientB == 0.3 && ambientIntensity == 0.2
    {
      count := 0;
      activeCount := 0;
      for i := 0 to MaxLights
        modifies lights, activeLights
        invariant forall k :: 0 <= k < i ==> lights[k] == DefaultSlot && activeLights[k] == -1
      {
        lights[i] := DefaultSlot;
        activeLights[i] := -1;
      }
      SetAmbient(0.3, 0.3, 0.3, 0.2);
    }

    /** `lighting_add_light`: -1 and no change when all slots are in use;
        otherwise the new light, active and with its squared radius, goes
        into slot `count`, which is returned, and the cache is rebuilt. */
    method AddLight(x: real, y: real, r: real, g: real, b: real, intensity: real, radius: real)
      returns (index: int)
      requires Valid()
      modifies this, lights, activeLights
      ensures Valid()
      ensures old(count) >= MaxLights ==> index == -1 && unchanged(this, lights, activeLights)
      ensures old(count) < MaxLights ==>
                && index == old(count) && count == old(count) + 1
                && lights[..] == old(lights[..])[index := Light(x, y, r, g, b, intensity, radius, radius * radius, true)]
                && activeLights[..activeCount] == Range(count)
      ensures ambientR == old(ambientR) && ambientG == old(ambientG) && ambientB == old(ambientB)
      ensures ambientIntensity == old(ambientIntensity)
      ensures forall k :: activeCount <= k < MaxLights ==> activeLights[k] == old(activeLights[k])
    {
      if count >= MaxLights {
        return -1;
      }
      index := count;
      lights[index] := Light(x, y, r, g, b, intensity, radius, radius * radius, true);
      count := count + 1;
      UpdateCache();
      ActiveIndicesAllActive(lights[..], count);
    }

    /** `lighting_remove_light`: nothing happens for an index outside
        [0, count); otherwise the slot is deactivated, the later slots move
        down one place in order, `count` drops by one and the cache is
        rebuilt. */
    method RemoveLight(index: int)
      requires Valid()
      modifies this, lights, activeLights
      ensures Valid()
      ensures !(0 <= index < old(count)) ==> unchanged(this, lights, activeLights)
      ensures 0 <= index < old(count) ==>
                && count == old(count) - 1
                && lights[..count] == old(lights[..])[..index] + old(lights[..])[index + 1..old(count)]
                && lights[count] == (if index == count then old(lights[index]).(active := false) else old(lights[..])[count])
                && (forall k :: old(count) <= k < MaxLights ==> lights[k] == old(lights[k]))
                && activeLights[..activeCount] == Range(count)
      ensures ambientR == old(ambientR) && ambientG == old(ambientG) && ambientB == old(ambientB)
      ensures ambientIntensity == old(ambientIntensity)
      ensures forall k :: activeCount <= k < MaxLights ==> activeLights[k] == old(activeLights[k])
    {
      if index < 0 || index >= count {
        return;
      }
      lights[index] := lights[index].(active := false);
      ShiftDown(index);
      count := count - 1;
      assert lights[..count] == old(lights[..])[..index] + old(lights[..])[index + 1..old(count)];
      UpdateCache();
      ActiveIndicesAllActive(lights[..], count);
    }

    /** The compaction loop of `lighting_remove_light`: slots index+1 ..
        count-1 each move down one place; the slots from count on are kept. */
    method ShiftDown(index: int)
      requires Shape() && 0 <= index < count
      modifies lights
      ensures forall k :: 0 <= k < index ==> lights[k] == old(lights[k])
      ensures forall k :: index <= k < count - 1 ==> lights[k] == old(lights[k + 1])
      ensures lights[count - 1] == old(lights[count - 1])
      ensures forall k :: count <= k < MaxLights ==> lights[k] == old(lights[k])
    {
      var i := index;
      while i < count - 1
        invariant index <= i <= count - 1
        invariant forall k :: 0 <= k < index ==> lights[k] == old(lights[k])
        invariant forall k :: index <= k < i ==> lights[k] == old(lights[k + 1])
        invariant lights[i] == old(lights[i])
        invariant forall k :: i < k < MaxLights ==> lights[k] == old(lights[k])
      {
        lights[i] := lights[i + 1];
        i := i + 1;
      }
    }

    /** `lighting_clear_all`: every slot inactive, no lights and an empty
        cache; the ambient term is kept. */
    method ClearAll()
      requires Valid()
      modifies this, lights
      ensures Valid()
      ensures count == 0 && activeCount == 0
      ensures forall k :: 0 <= k < MaxLights ==> lights[k] == old(lights[k]).(active := false)
      ensures ambientR == old(ambientR) && ambientG == old(ambientG) && ambientB == old(ambientB)
      ensures ambientIntensity == old(ambientIntensity)
    {
      for i := 0 to MaxLights
        modifies lights
        invariant forall k :: 0 <= k < i ==> lights[k] == old(lights[k]).(active := false)
        invariant forall k :: i <= k < MaxLights ==> lights[k] == old(lights[k])
      {
        lights[i] := lights[i].(active := false);
      }
      count := 0;
      activeCount := 0;
    }

    /** `lighting_update_cache`: a scan of the slots in use that stores the
        indices of the active ones, in order, at the front of the cache. */
    method UpdateCache()
      requires Shape()
      modifies this`activeCount, activeLights
      ensures Shape() && CacheValid()
      ensures forall k :: activeCount <= k < MaxLights ==> activeLights[k] == old(activeLights[k])
    {
      activeCount := 0;
      var i := 0;
      while i < count
        modifies this`activeCount, activeLights
        invariant 0 <= i <= count
        invariant 0 <= activeCount <= i
        invariant activeLights[..activeCount] == ActiveIndices(lights[..], i)
        invariant forall k :: activeCount <= k < MaxLights ==> activeLights[k] == old(activeLights[k])
      {
        if lights[i].active {
          activeLights[activeCount] := i;
          activeCount := activeCount + 1;
        }
        i := i + 1;
      }
    }

    /** `lighting_set_ambient`: overwrites the four ambient fields and nothing else. */
    method SetAmbient(r: real, g: real, b: real, intensity: real)
      modifies this`ambientR, this`ambientG, this`ambientB, this`ambientIntensity
      ensures ambientR == r && ambientG == g && ambientB == b && ambientIntensity == intensity
    {
      ambientR, ambientG, ambientB, ambientIntensity := r, g, b, intensity;
    }

    /** `lighting_get_light`: the slot for an index in [0, count), absent otherwise. */
    function GetLight(index: int): (l: Option<Light>)
      reads this, lights
      requires Shape()
      ensures l.None? <==> !(0 <= index < count)
      ensures l.Some? ==> l.value == lights[index]
      ensures Valid() && l.Some? ==> l.value.active
    {
      if index < 0 || index >= count then None else Some(lights[index])
    }

    /** The accumulation loop shared by the composite and the wall pass:
        ambient times ambient intensity, plus the contribution of each
        cached light. It only reads the manager. */
    method AccumulateLights(wx: real, wy: real, falloff: (real, real) -> real) returns (t: Rgb)
      requires Valid()
      ensures t == TotalLight(lights[..], activeLights[..activeCount], AmbientStart(View()), wx, wy, falloff)
    {
      ghost var v := View();
      t := Rgb(ambientR * ambientIntensity, ambientG * ambientIntensity, ambientB * ambientIntensity);
      var i := 0;
      while i < activeCount
        invariant 0 <= i <= activeCount
        invariant t == TotalLight(lights[..], activeLights[..i], AmbientStart(v), wx, wy, falloff)
      {
        var idx := activeLights[i];
        assert activeLights[..i + 1][..i] == activeLights[..i];
        t := AddContribution(t, lights[idx], wx, wy, falloff);
        i := i + 1;
      }
    }

    /** `lighting_calculate_pixel_color_fast`: the composite of the base
        colour with the light at (wx, wy). */
    method CalculatePixelColor(wx: real, wy: real, base: Pixel, falloff: (real, real) -> real) returns (out: Pixel)
      requires Valid()
      ensures out == Composite(View(), wx, wy, base, falloff)
      ensures out.alpha == base.alpha
    {
      var t := AccumulateLights(wx, wy, falloff);
      out := ApplyLightToColor(base, t.r, t.g, t.b, 1.0);
    }
  }
}
