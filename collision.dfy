/**
 * The collision test of the walk-through: the player, a square of half-size
 * 0.5 on the floor plane, is blocked by a wall box when the two overlap
 * strictly on both the x and the z axis.
 */
module Collision {
  import opened RoomLayout

  const PlayerRadius: real := 0.5

  function Abs(r: real): real { if r < 0.0 then -r else r }

  /** The wall `w` blocks a player centred at (x, z); touching the boundary does not. */
  predicate Blocks(w: Wall, x: real, z: real)
  {
    Abs(x - w.x) < w.sx / 2.0 + PlayerRadius && Abs(z - w.z) < w.sz / 2.0 + PlayerRadius
  }

  /** Some wall of the list blocks (x, z). */
  predicate Collides(walls: seq<Wall>, x: real, z: real)
  {
    exists i :: 0 <= i < |walls| && Blocks(walls[i], x, z)
  }

  /**
   * The boundary is not blocked: a wall at the origin of scale.x 4 blocks at
   * x = 2.4 but neither at x = 2.5 nor at x = 2.6; no wall list at all never blocks.
   */
  lemma BoundaryIsFree(x: real, z: real)
    ensures var w := Wall(0.0, 1.0, 0.0, 4.0, 2.0, 1.0);
      Collides([w], 2.4, 0.0) && !Collides([w], 2.5, 0.0) && !Collides([w], 2.6, 0.0)
    ensures !Collides([], x, z)
  {
    var w := Wall(0.0, 1.0, 0.0, 4.0, 2.0, 1.0);
    assert Blocks([w][0], 2.4, 0.0);
  }

  /** A list collides exactly when one of its two parts does. */
  lemma {:induction false} CollidesAppend(a: seq<Wall>, b: seq<Wall>, x: real, z: real)
    ensures Collides(a + b, x, z) <==> Collides(a, x, z) || Collides(b, x, z)
  {
    if Collides(a + b, x, z) {
      var i :| 0 <= i < |a + b| && Blocks((a + b)[i], x, z);
      if i >= |a| {
        assert Blocks(b[i - |a|], x, z);
      }
    }
    if Collides(a, x, z) {
      var i :| 0 <= i < |a| && Blocks(a[i], x, z);
      assert Blocks((a + b)[i], x, z);
    }
    if Collides(b, x, z) {
      var i :| 0 <= i < |b| && Blocks(b[i], x, z);
      assert Blocks((a + b)[|a| + i], x, z);
    }
  }

  // ---------------------------------------------------------------------
  // Collision against a room layout

  /** Distance from a wall line within which a thin wall blocks the player. */
  const Clearance: real := WallThickness / 2.0 + PlayerRadius

  /** The x coordinate of the k-th vertical wall line (k = 0 .. cols), and likewise in z. */
  function LineX(g: Grid, k: int): real { k as real * g.roomSize - g.cols as real * g.roomSize / 2.0 }
  function LineZ(g: Grid, k: int): real { k as real * g.roomSize - g.rows as real * g.roomSize / 2.0 }

  lemma RoomWallsOnLines(g: Grid, row: int, col: int)
    ensures RoomWalls(g, row, col)[0].z == LineZ(g, row)
    ensures RoomWalls(g, row, col)[1].z == LineZ(g, row + 1)
    ensures RoomWalls(g, row, col)[2].x == LineX(g, col)
    ensures RoomWalls(g, row, col)[3].x == LineX(g, col + 1)
  {
    assert (row + 1) as real * g.roomSize == row as real * g.roomSize + g.roomSize;
    assert (col + 1) as real * g.roomSize == col as real * g.roomSize + g.roomSize;
  }

  /**
   * A point that keeps its clearance from every wall line of the grid is
   * not blocked by any wall of the layout.
   */
  lemma FreeAwayFromLines(g: Grid, x: real, z: real)
    requires forall k :: 0 <= k <= Cols(g) ==> Abs(x - LineX(g, k)) >= Clearance
    requires forall k :: 0 <= k <= Rows(g) ==> Abs(z - LineZ(g, k)) >= Clearance
    ensures !Collides(LayoutWalls(g), x, z)
  {
    forall i | 0 <= i < |LayoutWalls(g)|
      ensures !Blocks(LayoutWalls(g)[i], x, z)
    {
      var w := LayoutWalls(g)[i];
      LayoutWallsMembership(g, w);
      var r, c :| 0 <= r < Rows(g) && 0 <= c < Cols(g) && w in RoomWalls(g, r, c);
      RoomWallsOnLines(g, r, c);
      assert Abs(z - LineZ(g, r)) >= Clearance && Abs(z - LineZ(g, r + 1)) >= Clearance;
      assert Abs(x - LineX(g, c)) >= Clearance && Abs(x - LineX(g, c + 1)) >= Clearance;
    }
  }

  lemma IntTimesPositive(d: int, s: real)
    requires s > 0.0
    ensures d >= 0 ==> d as real * s >= 0.0
    ensures d < 0 ==> d as real * s <= -s
  {
    if d < 0 {
      assert d as real <= -1.0;
      assert d as real * s == -s + (d as real + 1.0) * s;
    }
  }

  /** A room centre lies half a room away from the nearest grid line, and so keeps its clearance. */
  lemma CentreClearOfLines(s: real, centre: real, line: real, d: int)
    requires s > 2.0 * Clearance
    requires centre - line == s / 2.0 + d as real * s
    ensures Abs(centre - line) >= Clearance
  {
    IntTimesPositive(d, s);
  }

  /** In a grid of rooms wider than the player plus a wall, every room centre is free. */
  lemma RoomCentreFree(g: Grid, r: nat, c: nat)
    requires g.roomSize > 2.0 * Clearance
    requires r < Rows(g) && c < Cols(g)
    ensures !Collides(LayoutWalls(g), CentreX(g, c), CentreZ(g, r))
  {
    var s := g.roomSize;
    forall k | 0 <= k <= Cols(g)
      ensures Abs(CentreX(g, c) - LineX(g, k)) >= Clearance
    {
      assert (c - k) as real * s == c as real * s - k as real * s;
      CentreClearOfLines(s, CentreX(g, c), LineX(g, k), c - k);
    }
    forall k | 0 <= k <= Rows(g)
      ensures Abs(CentreZ(g, r) - LineZ(g, k)) >= Clearance
    {
      assert (r - k) as real * s == r as real * s - k as real * s;
      CentreClearOfLines(s, CentreZ(g, r), LineZ(g, k), r - k);
    }
    FreeAwayFromLines(g, CentreX(g, c), CentreZ(g, r));
  }
}
