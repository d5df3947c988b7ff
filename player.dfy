/** The player: a position on the map, a view direction and the camera
    plane perpendicular to it, with the speeds used by the frame update.
    Floats are exact reals; the cosine and sine of a rotation angle are the
    caller's coefficients. */
module Players {
  import opened CArith
  import opened Grid

  const PlayerSpeed := 3.0
  const RotationSpeed := 2.0
  /** Length of the camera plane relative to the direction (about 66 degrees of view). */
  const PlaneScale := 0.66

  function Dot(ux: real, uy: real, wx: real, wy: real): real
  {
    ux * wx + uy * wy
  }

  /** The vector (vx, vy) rotated by an angle with cosine c and sine s. */
  function Rotated(vx: real, vy: real, c: real, s: real): (real, real)
  {
    (vx * c - vy * s, vx * s + vy * c)
  }

  /** Rotating two vectors by the same coefficients scales their dot
      product by c^2 + s^2; for a true rotation (c^2 + s^2 = 1) it is kept. */
  lemma {:induction false} RotatedDot(ux: real, uy: real, wx: real, wy: real, c: real, s: real)
    ensures var (rux, ruy) := Rotated(ux, uy, c, s);
            var (rwx, rwy) := Rotated(wx, wy, c, s);
            Dot(rux, ruy, rwx, rwy) == (c * c + s * s) * Dot(ux, uy, wx, wy)
  {
    calc {
      (ux * c - uy * s) * (wx * c - wy * s) + (ux * s + uy * c) * (wx * s + wy * c);
      ux * wx * (c * c) - ux * wy * (c * s) - uy * wx * (s * c) + uy * wy * (s * s)
        + ux * wx * (s * s) + ux * wy * (s * c) + uy * wx * (c * s) + uy * wy * (c * c);
      (c * c + s * s) * (ux * wx + uy * wy);
    }
  }

  /** The camera plane `player_init` derives from a direction is
      perpendicular to it. */
  lemma InitialPlanePerpendicular(dirX: real, dirY: real)
    ensures Dot(dirX, dirY, -dirY * PlaneScale, dirX * PlaneScale) == 0.0
  {
    calc {
      dirX * (-dirY * PlaneScale) + dirY * (dirX * PlaneScale);
      PlaneScale * (dirY * dirX - dirX * dirY);
    }
  }

  /** Where `player_move` leaves a player at (x, y) asked to move by
      (dx, dy): x first, gated by the cell at (trunc(x + dx), trunc(y)), then
      y, gated by the cell at the already updated x and trunc(y + dy). */
  function MovedPosition(m: Map, x: real, y: real, dx: real, dy: real): (real, real)
    reads m, m.layers
    requires m.Valid()
  {
    var nx := if !m.IsWall(Trunc(x + dx), Trunc(y)) then x + dx else x;
    var ny := if !m.IsWall(Trunc(nx), Trunc(y + dy)) then y + dy else y;
    (nx, ny)
  }

  /** A player whose cell is open stays in an open cell. */
  lemma MoveKeepsOpen(m: Map, x: real, y: real, dx: real, dy: real)
    requires m.Valid() && !m.IsWall(Trunc(x), Trunc(y))
    ensures var (nx, ny) := MovedPosition(m, x, y, dx, dy);
            !m.IsWall(Trunc(nx), Trunc(ny))
  {
  }

  /** Each axis moves all the way or not at all, and only towards an
      open cell. */
  lemma MoveAxes(m: Map, x: real, y: real, dx: real, dy: real)
    requires m.Valid()
    ensures var (nx, ny) := MovedPosition(m, x, y, dx, dy);
            && (nx == x || nx == x + dx)
            && (ny == y || ny == y + dy)
            && (dx != 0.0 && nx == x + dx ==> !m.IsWall(Trunc(x + dx), Trunc(y)))
            && (dy != 0.0 && ny == y + dy ==> !m.IsWall(Trunc(nx), Trunc(y + dy)))
            && (!m.IsWall(Trunc(x + dx), Trunc(y)) ==> nx == x + dx)
            && (!m.IsWall(Trunc(nx), Trunc(y + dy)) ==> ny == y + dy)
  {
  }

  class Player {
    var x: real
    var y: real
    var dirX: real
    var dirY: real
    var planeX: real
    var planeY: real
    var moveSpeed: real
    var rotSpeed: real

    /** The camera plane is perpendicular to the direction. */
    ghost predicate Perpendicular()
      reads this
    {
      Dot(dirX, dirY, planeX, planeY) == 0.0
    }

    constructor (x0: real, y0: real, dx0: real, dy0: real)
      ensures x == x0 && y == y0 && dirX == dx0 && dirY == dy0
      ensures planeX == -dy0 * PlaneScale && planeY == dx0 * PlaneScale
      ensures moveSpeed == PlayerSpeed && rotSpeed == RotationSpeed
      ensures Perpendicular()
    {
      new;
      Init(x0, y0, dx0, dy0);
    }

    /** `player_init`: position and direction as given, the camera plane
        0.66 times the direction turned a quarter, and the default speeds. */
    method Init(x0: real, y0: real, dx0: real, dy0: real)
      modifies this
      ensures x == x0 && y == y0 && dirX == dx0 && dirY == dy0
      ensures planeX == -dy0 * PlaneScale && planeY == dx0 * PlaneScale
      ensures moveSpeed == PlayerSpeed && rotSpeed == RotationSpeed
      ensures Perpendicular()
    {
      x, y := x0, y0;
      dirX, dirY := dx0, dy0;
      planeX := -dy0 * PlaneScale;
      planeY := dx0 * PlaneScale;
      moveSpeed := PlayerSpeed;
      rotSpeed := RotationSpeed;
      InitialPlanePerpendicular(dx0, dy0);
    }

    /** `player_rotate` with `cosA` and `sinA` standing for cos and sin of
        the angle: direction and plane turn by the same coefficients, so
        their dot product is scaled by cosA^2 + sinA^2 and a perpendicular
        plane stays perpendicular. */
    method Rotate(cosA: real, sinA: real)
      modifies this`dirX, this`dirY, this`planeX, this`planeY
      ensures dirX == Rotated(old(dirX), old(dirY), cosA, sinA).0
      ensures dirY == Rotated(old(dirX), old(dirY), cosA, sinA).1
      ensures planeX == Rotated(old(planeX), old(planeY), cosA, sinA).0
      ensures planeY == Rotated(old(planeX), old(planeY), cosA, sinA).1
      ensures Dot(dirX, dirY, planeX, planeY) == (cosA * cosA + sinA * sinA) * old(Dot(dirX, dirY, planeX, planeY))
      ensures old(Perpendicular()) ==> Perpendicular()
    {
      ghost var (d0x, d0y, p0x, p0y) := (dirX, dirY, planeX, planeY);
      var oldDirX := dirX;
      dirX := dirX * cosA - dirY * sinA;
      dirY := oldDirX * sinA + dirY * cosA;
      var oldPlaneX := planeX;
      planeX := planeX * cosA - planeY * sinA;
      planeY := oldPlaneX * sinA + planeY * cosA;
      assert dirX == Rotated(d0x, d0y, cosA, sinA).0 && dirY == Rotated(d0x, d0y, cosA, sinA).1;
      assert planeX == Rotated(p0x, p0y, cosA, sinA).0 && planeY == Rotated(p0x, p0y, cosA, sinA).1;
      RotatedDot(d0x, d0y, p0x, p0y, cosA, sinA);
    }

    /** `player_move`: each axis in turn moves only when the cell it would
        enter is open; direction, plane and speeds are not touched, and a
        player in an open cell stays in one. */
    method Move(m: Map, dx: real, dy: real)
      requires m.Valid()
      modifies this`x, this`y
      ensures (x, y) == MovedPosition(m, old(x), old(y), dx, dy)
      ensures !m.IsWall(Trunc(old(x)), Trunc(old(y))) ==> !m.IsWall(Trunc(x), Trunc(y))
    {
      ghost var (x0, y0) := (x, y);
      var newX := x + dx;
      var newY := y + dy;
      if !m.IsWall(Trunc(newX), Trunc(y)) {
        x := newX;
      }
      if !m.IsWall(Trunc(x), Trunc(newY)) {
        y := newY;
      }
      if !m.IsWall(Trunc(x0), Trunc(y0)) {
        MoveKeepsOpen(m, x0, y0, dx, dy);
      }
    }
  }
}
