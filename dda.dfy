/** The grid walk (DDA) of one screen column: from the player's cell the
    ray steps one cell at a time along x or y, whichever side distance is
    smaller, until it enters a wall cell. Side distances are exact reals. */
module Dda {
  import opened CArith
  import opened Grid

  /** Stands for `1e30`, the delta distance of an axis the ray runs parallel to. */
  const Huge: real := 1000000000000000000000000000000.0

  /** The state before the walk: the player's cell, the distances to the
      first x and y grid lines, the distance between successive lines, and
      the direction of travel along each axis. */
  datatype RayStart = RayStart(mapX: int, mapY: int, sideDistX: real, sideDistY: real,
                               deltaX: real, deltaY: real, stepX: int, stepY: int)

  /** The cell the walk stopped in and the axis of its last step: 0 for
      a step along x, 1 for a step along y. */
  datatype Hit = Hit(mapX: int, mapY: int, side: int)

  function Abs(r: real): real { if r < 0.0 then -r else r }

  /** `delta_dist`: |1 / d|, or `1e30` when the ray does not move along the axis. */
  function DeltaDist(d: real): (r: real)
    ensures r > 0.0
    ensures d == 0.0 ==> r == Huge
    ensures d != 0.0 ==> r * Abs(d) == 1.0
  {
    if d == 0.0 then Huge else Abs(1.0 / d)
  }

  /** The set-up before the loop in `raycaster_render` for a player at
      (px, py) and a ray direction (rdx, rdy): the cell is the truncated
      position; each axis steps -1 exactly when the ray direction along it
      is negative and +1 otherwise. */
  function Setup(px: real, py: real, rdx: real, rdy: real): (r: RayStart)
    ensures r.mapX == Trunc(px) && r.mapY == Trunc(py)
    ensures r.stepX == (if rdx < 0.0 then -1 else 1)
    ensures r.stepY == (if rdy < 0.0 then -1 else 1)
    ensures r.deltaX > 0.0 && r.deltaY > 0.0
  {
    var mapX, mapY := Trunc(px), Trunc(py);
    var deltaX, deltaY := DeltaDist(rdx), DeltaDist(rdy);
    var (stepX, sideDistX) :=
      if rdx < 0.0 then (-1, (px - mapX as real) * deltaX) else (1, (mapX as real + 1.0 - px) * deltaX);
    var (stepY, sideDistY) :=
      if rdy < 0.0 then (-1, (py - mapY as real) * deltaY) else (1, (mapY as real + 1.0 - py) * deltaY);
    RayStart(mapX, mapY, sideDistX, sideDistY, deltaX, deltaY, stepX, stepY)
  }

  predicate UnitStep(s: int) { s == -1 || s == 1 }

  /** How many more cells along one axis a walk in direction s from
      coordinate c can visit before it leaves [0, n). */
  function Remaining(c: int, s: int, n: int): nat
  {
    if s > 0 then (if n - c > 0 then n - c else 0) else (if c + 1 > 0 then c + 1 else 0)
  }

  /** The walk as a function: one step along the axis with the smaller
      side distance (y on a tie), stopping at the first wall cell entered.
      It terminates because every cell it continues from lies inside the
      map, so the cells left to visit along the stepped axis decrease. */
  function Walk(m: MapView, mapX: int, mapY: int, sdx: real, sdy: real, ddx: real, ddy: real,
                stepX: int, stepY: int): (h: Hit)
    requires m.Valid() && UnitStep(stepX) && UnitStep(stepY)
    ensures m.IsWall(h.mapX, h.mapY)
    ensures h.side == 0 || h.side == 1
    decreases Remaining(mapX, stepX, m.width) + Remaining(mapY, stepY, m.height)
  {
    if sdx < sdy then
      var nx := mapX + stepX;
      if m.IsWall(nx, mapY) then Hit(nx, mapY, 0)
      else Walk(m, nx, mapY, sdx + ddx, sdy, ddx, ddy, stepX, stepY)
    else
      var ny := mapY + stepY;
      if m.IsWall(mapX, ny) then Hit(mapX, ny, 1)
      else Walk(m, mapX, ny, sdx, sdy + ddy, ddx, ddy, stepX, stepY)
  }

  /** The walk from a set-up state. */
  function WalkFrom(m: MapView, r: RayStart): Hit
    requires m.Valid() && UnitStep(r.stepX) && UnitStep(r.stepY)
  {
    Walk(m, r.mapX, r.mapY, r.sideDistX, r.sideDistY, r.deltaX, r.deltaY, r.stepX, r.stepY)
  }

  /** b is one step from a along exactly one axis, in that axis' direction. */
  predicate OneStep(a: (int, int), b: (int, int), stepX: int, stepY: int)
  {
    (b.0 == a.0 + stepX && b.1 == a.1) || (b.0 == a.0 && b.1 == a.1 + stepY)
  }

  /** The cells the walk enters, in order; the start cell is not among them. */
  ghost function Cells(m: MapView, mapX: int, mapY: int, sdx: real, sdy: real, ddx: real, ddy: real,
                       stepX: int, stepY: int): (cs: seq<(int, int)>)
    requires m.Valid() && UnitStep(stepX) && UnitStep(stepY)
    decreases Remaining(mapX, stepX, m.width) + Remaining(mapY, stepY, m.height)
  {
    if sdx < sdy then
      var nx := mapX + stepX;
      if m.IsWall(nx, mapY) then [(nx, mapY)]
      else [(nx, mapY)] + Cells(m, nx, mapY, sdx + ddx, sdy, ddx, ddy, stepX, stepY)
    else
      var ny := mapY + stepY;
      if m.IsWall(mapX, ny) then [(mapX, ny)]
      else [(mapX, ny)] + Cells(m, mapX, ny, sdx, sdy + ddy, ddx, ddy, stepX, stepY)
  }

  /** The last cell entered is the hit. */
  lemma {:induction false} CellsEndAtHit(m: MapView, mapX: int, mapY: int, sdx: real, sdy: real, ddx: real, ddy: real,
                                         stepX: int, stepY: int)
    requires m.Valid() && UnitStep(stepX) && UnitStep(stepY)
    ensures var cs := Cells(m, mapX, mapY, sdx, sdy, ddx, ddy, stepX, stepY);
            var h := Walk(m, mapX, mapY, sdx, sdy, ddx, ddy, stepX, stepY);
            |cs| >= 1 && cs[|cs| - 1] == (h.mapX, h.mapY)
    decreases Remaining(mapX, stepX, m.width) + Remaining(mapY, stepY, m.height)
  {
    var cs := Cells(m, mapX, mapY, sdx, sdy, ddx, ddy, stepX, stepY);
    if sdx < sdy {
      var nx := mapX + stepX;
      if !m.IsWall(nx, mapY) {
        CellsEndAtHit(m, nx, mapY, sdx + ddx, sdy, ddx, ddy, stepX, stepY);
        var rest := Cells(m, nx, mapY, sdx + ddx, sdy, ddx, ddy, stepX, stepY);
        assert cs == [(nx, mapY)] + rest;
        assert cs[|cs| - 1] == rest[|rest| - 1];
      }
    } else {
      var ny := mapY + stepY;
      if !m.IsWall(mapX, ny) {
        CellsEndAtHit(m, mapX, ny, sdx, sdy + ddy, ddx, ddy, stepX, stepY);
        var rest := Cells(m, mapX, ny, sdx, sdy + ddy, ddx, ddy, stepX, stepY);
        assert cs == [(mapX, ny)] + rest;
        assert cs[|cs| - 1] == rest[|rest| - 1];
      }
    }
  }

  /** The cell a walk from `start` that entered the cells `cs` stood in
      before its last step. */
  function PrevCell(start: (int, int), cs: seq<(int, int)>): (int, int)
  {
    if |cs| <= 1 then start else cs[|cs| - 2]
  }

  /** The hit was reached from `prev` by one step along the axis `side` names. */
  predicate StepInto(prev: (int, int), h: Hit, stepX: int, stepY: int)
  {
    && (h.side == 0 ==> (h.mapX, h.mapY) == (prev.0 + stepX, prev.1))
    && (h.side == 1 ==> (h.mapX, h.mapY) == (prev.0, prev.1 + stepY))
  }

  /** The hit's `side` is the axis of the last step: it is reached from
      the cell before it (the start, for a one-step walk) along x when
      `side` is 0 and along y when it is 1. */
  lemma {:induction false} SideIsLastAxis(m: MapView, mapX: int, mapY: int, sdx: real, sdy: real, ddx: real, ddy: real,
                                          stepX: int, stepY: int)
    requires m.Valid() && UnitStep(stepX) && UnitStep(stepY)
    ensures StepInto(PrevCell((mapX, mapY), Cells(m, mapX, mapY, sdx, sdy, ddx, ddy, stepX, stepY)),
                     Walk(m, mapX, mapY, sdx, sdy, ddx, ddy, stepX, stepY), stepX, stepY)
    decreases Remaining(mapX, stepX, m.width) + Remaining(mapY, stepY, m.height)
  {
    if sdx < sdy {
      var nx := mapX + stepX;
      if !m.IsWall(nx, mapY) {
        assert Walk(m, mapX, mapY, sdx, sdy, ddx, ddy, stepX, stepY)
               == Walk(m, nx, mapY, sdx + ddx, sdy, ddx, ddy, stepX, stepY);
        SideIsLastAxis(m, nx, mapY, sdx + ddx, sdy, ddx, ddy, stepX, stepY);
        var rest := Cells(m, nx, mapY, sdx + ddx, sdy, ddx, ddy, stepX, stepY);
        CellsEndAtHit(m, nx, mapY, sdx + ddx, sdy, ddx, ddy, stepX, stepY);
        assert Cells(m, mapX, mapY, sdx, sdy, ddx, ddy, stepX, stepY) == [(nx, mapY)] + rest;
        PrevAfterCons((mapX, mapY), (nx, mapY), rest);
      }
    } else {
      var ny := mapY + stepY;
      if !m.IsWall(mapX, ny) {
        assert Walk(m, mapX, mapY, sdx, sdy, ddx, ddy, stepX, stepY)
               == Walk(m, mapX, ny, sdx, sdy + ddy, ddx, ddy, stepX, stepY);
        SideIsLastAxis(m, mapX, ny, sdx, sdy + ddy, ddx, ddy, stepX, stepY);
        var rest := Cells(m, mapX, ny, sdx, sdy + ddy, ddx, ddy, stepX, stepY);
        CellsEndAtHit(m, mapX, ny, sdx, sdy + ddy, ddx, ddy, stepX, stepY);
        assert Cells(m, mapX, mapY, sdx, sdy, ddx, ddy, stepX, stepY) == [(mapX, ny)] + rest;
        PrevAfterCons((mapX, mapY), (mapX, ny), rest);
      }
    }
  }

  // The cell before the last of [next] + rest is the one before the last of rest, or next.
  lemma PrevAfterCons(start: (int, int), next: (int, int), rest: seq<(int, int)>)
    requires |rest| >= 1
    ensures PrevCell(start, [next] + rest) == PrevCell(next, rest)
  {
  }

  /** Each cell entered is one step from the one before along one axis,
      and every cell before the last is open. */
  lemma {:induction false} CellsAreSteps(m: MapView, mapX: int, mapY: int, sdx: real, sdy: real, ddx: real, ddy: real,
                                         stepX: int, stepY: int)
    requires m.Valid() && UnitStep(stepX) && UnitStep(stepY)
    ensures var cs := Cells(m, mapX, mapY, sdx, sdy, ddx, ddy, stepX, stepY);
            && |cs| >= 1
            && OneStep((mapX, mapY), cs[0], stepX, stepY)
            && (forall i :: 0 <= i < |cs| - 1 ==> OneStep(cs[i], cs[i + 1], stepX, stepY) && !m.IsWall(cs[i].0, cs[i].1))
    decreases Remaining(mapX, stepX, m.width) + Remaining(mapY, stepY, m.height)
  {
    var cs := Cells(m, mapX, mapY, sdx, sdy, ddx, ddy, stepX, stepY);
    var next, nsdx, nsdy := if sdx < sdy then (mapX + stepX, mapY) else (mapX, mapY + stepY),
                            if sdx < sdy then sdx + ddx else sdx, if sdx < sdy then sdy else sdy + ddy;
    if !m.IsWall(next.0, next.1) {
      CellsAreSteps(m, next.0, next.1, nsdx, nsdy, ddx, ddy, stepX, stepY);
      var rest := Cells(m, next.0, next.1, nsdx, nsdy, ddx, ddy, stepX, stepY);
      assert cs == [next] + rest;
      forall i | 0 <= i < |cs| - 1
        ensures OneStep(cs[i], cs[i + 1], stepX, stepY) && !m.IsWall(cs[i].0, cs[i].1)
      {
        if i > 0 {
          assert cs[i] == rest[i - 1] && cs[i + 1] == rest[i];
        }
      }
    }
  }

  /** From a start inside the map, no more cells are entered than remain
      along the two axes. */
  lemma {:induction false} CellsBounded(m: MapView, mapX: int, mapY: int, sdx: real, sdy: real, ddx: real, ddy: real,
                                        stepX: int, stepY: int)
    requires m.Valid() && UnitStep(stepX) && UnitStep(stepY) && InBounds(m.width, m.height, mapX, mapY)
    ensures |Cells(m, mapX, mapY, sdx, sdy, ddx, ddy, stepX, stepY)|
            <= Remaining(mapX, stepX, m.width) + Remaining(mapY, stepY, m.height)
    decreases Remaining(mapX, stepX, m.width) + Remaining(mapY, stepY, m.height)
  {
    if sdx < sdy {
      var nx := mapX + stepX;
      if !m.IsWall(nx, mapY) {
        CellsBounded(m, nx, mapY, sdx + ddx, sdy, ddx, ddy, stepX, stepY);
      }
    } else {
      var ny := mapY + stepY;
      if !m.IsWall(mapX, ny) {
        CellsBounded(m, mapX, ny, sdx, sdy + ddy, ddx, ddy, stepX, stepY);
      }
    }
  }

  /** From a cell inside the map, at most width + height cells remain. */
  lemma RemainingBound(m: MapView, x: int, y: int, stepX: int, stepY: int)
    requires m.Valid() && InBounds(m.width, m.height, x, y) && UnitStep(stepX) && UnitStep(stepY)
    ensures Remaining(x, stepX, m.width) + Remaining(y, stepY, m.height) <= m.width + m.height
  {
  }

  /** The cells the walk from a set-up state enters. */
  ghost function CellsFrom(m: MapView, r: RayStart): seq<(int, int)>
    requires m.Valid() && UnitStep(r.stepX) && UnitStep(r.stepY)
  {
    Cells(m, r.mapX, r.mapY, r.sideDistX, r.sideDistY, r.deltaX, r.deltaY, r.stepX, r.stepY)
  }

  /** One step of the walk along x: the cell entered, and either the hit
      there or the rest of the walk from it. */
  lemma WalkStepX(m: MapView, mapX: int, mapY: int, sdx: real, sdy: real, ddx: real, ddy: real,
                  stepX: int, stepY: int)
    requires m.Valid() && UnitStep(stepX) && UnitStep(stepY) && sdx < sdy
    ensures m.IsWall(mapX + stepX, mapY) ==>
              Walk(m, mapX, mapY, sdx, sdy, ddx, ddy, stepX, stepY) == Hit(mapX + stepX, mapY, 0)
              && |Cells(m, mapX, mapY, sdx, sdy, ddx, ddy, stepX, stepY)| == 1
    ensures !m.IsWall(mapX + stepX, mapY) ==>
              Walk(m, mapX, mapY, sdx, sdy, ddx, ddy, stepX, stepY)
                == Walk(m, mapX + stepX, mapY, sdx + ddx, sdy, ddx, ddy, stepX, stepY)
              && |Cells(m, mapX, mapY, sdx, sdy, ddx, ddy, stepX, stepY)|
                == 1 + |Cells(m, mapX + stepX, mapY, sdx + ddx, sdy, ddx, ddy, stepX, stepY)|
  {
  }

  /** One step of the walk along y, taken when the x side distance is not smaller. */
  lemma WalkStepY(m: MapView, mapX: int, mapY: int, sdx: real, sdy: real, ddx: real, ddy: real,
                  stepX: int, stepY: int)
    requires m.Valid() && UnitStep(stepX) && UnitStep(stepY) && !(sdx < sdy)
    ensures m.IsWall(mapX, mapY + stepY) ==>
              Walk(m, mapX, mapY, sdx, sdy, ddx, ddy, stepX, stepY) == Hit(mapX, mapY + stepY, 1)
              && |Cells(m, mapX, mapY, sdx, sdy, ddx, ddy, stepX, stepY)| == 1
    ensures !m.IsWall(mapX, mapY + stepY) ==>
              Walk(m, mapX, mapY, sdx, sdy, ddx, ddy, stepX, stepY)
                == Walk(m, mapX, mapY + stepY, sdx, sdy + ddy, ddx, ddy, stepX, stepY)
              && |Cells(m, mapX, mapY, sdx, sdy, ddx, ddy, stepX, stepY)|
                == 1 + |Cells(m, mapX, mapY + stepY, sdx, sdy + ddy, ddx, ddy, stepX, stepY)|
  {
  }

  /** Midway through the walk from `r`: the walk from cell (mapX, mapY)
      with side distances (sdx, sdy) ends at `target` after `left` cells. */
  ghost predicate Midway(m: MapView, r: RayStart, mapX: int, mapY: int, sdx: real, sdy: real, target: Hit, left: int)
    requires m.Valid() && UnitStep(r.stepX) && UnitStep(r.stepY)
  {
    && Walk(m, mapX, mapY, sdx, sdy, r.deltaX, r.deltaY, r.stepX, r.stepY) == target
    && |Cells(m, mapX, mapY, sdx, sdy, r.deltaX, r.deltaY, r.stepX, r.stepY)| == left
  }

  /** A step along x from a midway state either enters the hit, as the
      last cell, or reaches the next midway state. */
  lemma AdvanceX(m: MapView, r: RayStart, mapX: int, mapY: int, sdx: real, sdy: real, target: Hit, left: int)
    requires m.Valid() && UnitStep(r.stepX) && UnitStep(r.stepY) && sdx < sdy
    requires Midway(m, r, mapX, mapY, sdx, sdy, target, left)
    ensures m.IsWall(mapX + r.stepX, mapY) ==> target == Hit(mapX + r.stepX, mapY, 0) && left == 1
    ensures !m.IsWall(mapX + r.stepX, mapY) ==> Midway(m, r, mapX + r.stepX, mapY, sdx + r.deltaX, sdy, target, left - 1)
  {
    WalkStepX(m, mapX, mapY, sdx, sdy, r.deltaX, r.deltaY, r.stepX, r.stepY);
  }

  /** A step along y from a midway state, taken when x is not nearer. */
  lemma AdvanceY(m: MapView, r: RayStart, mapX: int, mapY: int, sdx: real, sdy: real, target: Hit, left: int)
    requires m.Valid() && UnitStep(r.stepX) && UnitStep(r.stepY) && !(sdx < sdy)
    requires Midway(m, r, mapX, mapY, sdx, sdy, target, left)
    ensures m.IsWall(mapX, mapY + r.stepY) ==> target == Hit(mapX, mapY + r.stepY, 1) && left == 1
    ensures !m.IsWall(mapX, mapY + r.stepY) ==> Midway(m, r, mapX, mapY + r.stepY, sdx, sdy + r.deltaY, target, left - 1)
  {
    WalkStepY(m, mapX, mapY, sdx, sdy, r.deltaX, r.deltaY, r.stepX, r.stepY);
  }

  /** One iteration of the DDA loop: a step along the axis with the
      smaller side distance (y on a tie), then the wall test of the cell
      entered. From a midway state it reaches the hit, as the last cell, or
      the next midway state. */
  method StepRay(m: Map, ghost v: MapView, r: RayStart, mapX: int, mapY: int, sdx: real, sdy: real,
                 ghost target: Hit, ghost left: int)
    returns (mapX': int, mapY': int, sdx': real, sdy': real, side: int, hit: bool)
    requires m.Valid() && v == m.View() && UnitStep(r.stepX) && UnitStep(r.stepY)
    requires Midway(v, r, mapX, mapY, sdx, sdy, target, left)
    ensures hit ==> Hit(mapX', mapY', side) == target && left == 1
    ensures !hit ==> Midway(v, r, mapX', mapY', sdx', sdy', target, left - 1)
  {
    mapX', mapY', sdx', sdy' := mapX, mapY, sdx, sdy;
    if sdx < sdy {
      AdvanceX(v, r, mapX, mapY, sdx, sdy, target, left);
      sdx' := sdx + r.deltaX;
      mapX' := mapX + r.stepX;
      side := 0;
    } else {
      AdvanceY(v, r, mapX, mapY, sdx, sdy, target, left);
      sdy' := sdy + r.deltaY;
      mapY' := mapY + r.stepY;
      side := 1;
    }
    m.ViewWall(v, mapX', mapY');
    hit := m.IsWall(mapX', mapY');
  }

  /** The DDA loop of `raycaster_render`: it returns the hit of the walk
      over the map's contents and, as a ghost result, the number of
      iterations, one per cell entered. From a start inside the map that is
      at most width + height. */
  method CastRay(m: Map, r: RayStart) returns (h: Hit, ghost steps: nat)
    requires m.Valid() && UnitStep(r.stepX) && UnitStep(r.stepY)
    ensures h == WalkFrom(m.View(), r) && m.IsWall(h.mapX, h.mapY)
    ensures steps == |CellsFrom(m.View(), r)| >= 1
    ensures InBounds(m.width, m.height, r.mapX, r.mapY) ==> steps <= m.width + m.height
  {
    ghost var v := m.View();
    var mapX, mapY := r.mapX, r.mapY;
    var sideDistX, sideDistY := r.sideDistX, r.sideDistY;
    var side := 0;
    var hit := false;
    steps := 0;
    ghost var target, total := WalkFrom(v, r), |CellsFrom(v, r)|;
    while !hit
      invariant !hit ==> Midway(v, r, mapX, mapY, sideDistX, sideDistY, target, total - steps)
      invariant hit ==> Hit(mapX, mapY, side) == target && steps == total
      invariant steps <= total
      decreases total - steps + (if hit then 0 else 1)
    {
      mapX, mapY, sideDistX, sideDistY, side, hit :=
        StepRay(m, v, r, mapX, mapY, sideDistX, sideDistY, target, total - steps);
      steps := steps + 1;
    }
    h := Hit(mapX, mapY, side);
    m.ViewWall(v, h.mapX, h.mapY);
    CellsEndAtHit(v, r.mapX, r.mapY, r.sideDistX, r.sideDistY, r.deltaX, r.deltaY, r.stepX, r.stepY);
    if InBounds(m.width, m.height, r.mapX, r.mapY) {
      CellsBounded(v, r.mapX, r.mapY, r.sideDistX, r.sideDistY, r.deltaX, r.deltaY, r.stepX, r.stepY);
      RemainingBound(v, r.mapX, r.mapY, r.stepX, r.stepY);
    }
  }
}
