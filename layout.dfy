/**
 * The room grid of the walk-through: every room of a `cols` x `rows` grid,
 * centred on the origin, is enclosed by four axis-aligned wall boxes and
 * carries a floor label "Room N".  These functions give the wall list and
 * the label list in the order the nested row/column loops produce them.
 */
module RoomLayout {
  import opened Options
  import Decimal

  /** A wall box: centre (x, y, z) and scale (sx, sy, sz) of a unit cube. */
  datatype Wall = Wall(x: real, y: real, z: real, sx: real, sy: real, sz: real)

  /** A floor label: where it lies and what it says. */
  datatype Label = Label(x: real, z: real, text: string)

  /** The destructured argument of the layout call; absent fields take defaults. */
  datatype RoomsOptions = RoomsOptions(cols: Option<int>, rows: Option<int>, roomSize: Option<real>)

  datatype Grid = Grid(cols: int, rows: int, roomSize: real)

  const WallHeight: real := 2.0
  const WallThickness: real := 0.5

  /** Defaults of the layout call: one column, one row, rooms of size 10. */
  function ResolveOptions(o: RoomsOptions): (g: Grid)
    ensures o.cols.None? ==> g.cols == 1
    ensures o.rows.None? ==> g.rows == 1
    ensures o.roomSize.None? ==> g.roomSize == 10.0
    ensures o.cols.Some? ==> g.cols == o.cols.value
    ensures o.rows.Some? ==> g.rows == o.rows.value
    ensures o.roomSize.Some? ==> g.roomSize == o.roomSize.value
  {
    Grid(o.cols.GetOr(1), o.rows.GetOr(1), o.roomSize.GetOr(10.0))
  }

  /** Number of columns / rows the loops run over (none for a non-positive count). */
  function Cols(g: Grid): nat { if g.cols <= 0 then 0 else g.cols }
  function Rows(g: Grid): nat { if g.rows <= 0 then 0 else g.rows }

  function StartX(g: Grid): real { -(g.cols as real * g.roomSize) / 2.0 + g.roomSize / 2.0 }
  function StartZ(g: Grid): real { -(g.rows as real * g.roomSize) / 2.0 + g.roomSize / 2.0 }

  /** Centre of the rooms in column `col` / row `row`. */
  function CentreX(g: Grid, col: int): real { StartX(g) + col as real * g.roomSize }
  function CentreZ(g: Grid, row: int): real { StartZ(g) + row as real * g.roomSize }

  /** The four walls of one room, in creation order: north, south, west, east. */
  function RoomWalls(g: Grid, row: int, col: int): seq<Wall>
  {
    var cx, cz, half := CentreX(g, col), CentreZ(g, row), g.roomSize / 2.0;
    var y := WallHeight / 2.0;
    [ Wall(cx, y, cz - half, g.roomSize, WallHeight, WallThickness),
      Wall(cx, y, cz + half, g.roomSize, WallHeight, WallThickness),
      Wall(cx - half, y, cz, WallThickness, WallHeight, g.roomSize),
      Wall(cx + half, y, cz, WallThickness, WallHeight, g.roomSize) ]
  }

  /** The label text of the room numbered `n`. */
  function RoomName(n: nat): string
  {
    "Room " + Decimal.ToDecimal(n)
  }

  function RoomLabel(g: Grid, row: nat, col: nat): Label
  {
    Label(CentreX(g, col), CentreZ(g, row), RoomName(row * Cols(g) + col + 1))
  }

  /** Walls of the first `n` rooms of row `row`. */
  function RowWalls(g: Grid, row: nat, n: nat): seq<Wall>
  {
    if n == 0 then [] else RowWalls(g, row, n - 1) + RoomWalls(g, row, n - 1)
  }

  /** Walls of the first `m` rows. */
  function GridWalls(g: Grid, m: nat): seq<Wall>
  {
    if m == 0 then [] else GridWalls(g, m - 1) + RowWalls(g, m - 1, Cols(g))
  }

  function RowLabels(g: Grid, row: nat, n: nat): seq<Label>
  {
    if n == 0 then [] else RowLabels(g, row, n - 1) + [RoomLabel(g, row, n - 1)]
  }

  function GridLabels(g: Grid, m: nat): seq<Label>
  {
    if m == 0 then [] else GridLabels(g, m - 1) + RowLabels(g, m - 1, Cols(g))
  }

  /** The complete wall list of a layout, row-major. */
  function LayoutWalls(g: Grid): seq<Wall> { GridWalls(g, Rows(g)) }

  /** The complete label list of a layout, row-major. */
  function LayoutLabels(g: Grid): seq<Label> { GridLabels(g, Rows(g)) }

  // ---------------------------------------------------------------------
  // Row-major index arithmetic

  lemma {:induction false} MulMono(a: nat, b: nat, n: nat)
    ensures a <= b ==> a * n <= b * n
    decreases b
  {
    if a < b {
      MulMono(a, b - 1, n);
      assert b * n == (b - 1) * n + n;
    }
  }

  /** m rows of n cells are m-1 rows of n cells and one more row. */
  lemma MulPred(m: nat, n: nat)
    requires m > 0
    ensures m * n == (m - 1) * n + n
  {
  }

  /** Cell (r, c) of an m x n grid has row-major index r*n+c below m*n; rows before the last stay below (m-1)*n. */
  lemma RowMajorBound(r: nat, c: nat, m: nat, n: nat)
    requires r < m && c < n
    ensures r * n + c < m * n
    ensures m * n == (m - 1) * n + n
    ensures r < m - 1 ==> r * n + c < (m - 1) * n
  {
    MulMono(r + 1, m, n);
    MulMono(r + 1, m - 1, n);
    assert (r + 1) * n == r * n + n;
    assert m * n == (m - 1) * n + n;
  }

  /** Row-major index k of an R x n grid splits into row k/n < R and column k%n. */
  lemma RowMajorSplit(k: nat, rows: nat, n: nat)
    requires k < rows * n
    ensures n > 0 && 0 <= k / n < rows && 0 <= k % n < n && k == (k / n) * n + k % n
  {
    var q := k / n;
    assert q * n <= k;
    MulMono(rows, q, n);
  }

  // ---------------------------------------------------------------------
  // Counting and indexing

  lemma {:induction false} RowWallsAt(g: Grid, row: nat, n: nat)
    ensures |RowWalls(g, row, n)| == 4 * n
    ensures forall c, j :: 0 <= c < n && 0 <= j < 4 ==> RowWalls(g, row, n)[4 * c + j] == RoomWalls(g, row, c)[j]
  {
    if n > 0 {
      RowWallsAt(g, row, n - 1);
    }
  }

  lemma {:induction false} GridWallsLength(g: Grid, m: nat)
    ensures |GridWalls(g, m)| == 4 * (m * Cols(g))
  {
    if m > 0 {
      GridWallsLength(g, m - 1);
      RowWallsAt(g, m - 1, Cols(g));
      MulPred(m, Cols(g));
    }
  }

  lemma {:induction false} GridWallAt(g: Grid, m: nat, r: nat, c: nat, j: nat)
    requires r < m && c < Cols(g) && j < 4
    ensures 4 * (r * Cols(g) + c) + j < |GridWalls(g, m)|
    ensures GridWalls(g, m)[4 * (r * Cols(g) + c) + j] == RoomWalls(g, r, c)[j]
  {
    var n := Cols(g);
    var prev, row := GridWalls(g, m - 1), RowWalls(g, m - 1, n);
    assert GridWalls(g, m) == prev + row;
    GridWallsLength(g, m - 1);
    RowWallsAt(g, m - 1, n);
    RowMajorBound(r, c, m, n);
    if r < m - 1 {
      GridWallAt(g, m - 1, r, c, j);
    } else {
      assert 4 * (r * n + c) + j == |prev| + (4 * c + j);
    }
  }

  /**
   * The layout holds exactly four walls per room and nothing else; a
   * non-positive row or column count gives no walls at all.
   */
  lemma LayoutWallsAt(g: Grid)
    ensures |LayoutWalls(g)| == 4 * (Rows(g) * Cols(g))
    ensures g.rows <= 0 || g.cols <= 0 ==> LayoutWalls(g) == []
    ensures g.rows > 0 && g.cols > 0 ==> |LayoutWalls(g)| == 4 * (g.rows * g.cols)
  {
    var m, n := Rows(g), Cols(g);
    GridWallsLength(g, m);
    if m == 0 {
      assert |LayoutWalls(g)| == 0;
    } else if n == 0 {
      assert m * n == 0;
    } else {
      assert m == g.rows && n == g.cols;
    }
  }

  /**
   * The walls of the room in row `r`, column `c` are entries 4(r*cols+c) ..
   * 4(r*cols+c)+3 of the layout, in north, south, west, east order.
   */
  lemma LayoutWallAt(g: Grid, r: nat, c: nat, j: nat)
    requires r < Rows(g) && c < Cols(g) && j < 4
    ensures 4 * (r * Cols(g) + c) + j < |LayoutWalls(g)|
    ensures LayoutWalls(g)[4 * (r * Cols(g) + c) + j] == RoomWalls(g, r, c)[j]
  {
    GridWallAt(g, Rows(g), r, c, j);
  }

  lemma {:induction false} RowLabelsAt(g: Grid, row: nat, n: nat)
    ensures |RowLabels(g, row, n)| == n
    ensures forall c :: 0 <= c < n ==> RowLabels(g, row, n)[c] == RoomLabel(g, row, c)
  {
    if n > 0 {
      RowLabelsAt(g, row, n - 1);
    }
  }

  lemma {:induction false} GridLabelsLength(g: Grid, m: nat)
    ensures |GridLabels(g, m)| == m * Cols(g)
  {
    if m > 0 {
      GridLabelsLength(g, m - 1);
      RowLabelsAt(g, m - 1, Cols(g));
      MulPred(m, Cols(g));
    }
  }

  lemma {:induction false} GridLabelAt(g: Grid, m: nat, r: nat, c: nat)
    requires r < m && c < Cols(g)
    ensures r * Cols(g) + c < |GridLabels(g, m)|
    ensures GridLabels(g, m)[r * Cols(g) + c] == RoomLabel(g, r, c)
  {
    var n := Cols(g);
    var prev, row := GridLabels(g, m - 1), RowLabels(g, m - 1, n);
    assert GridLabels(g, m) == prev + row;
    GridLabelsLength(g, m - 1);
    RowLabelsAt(g, m - 1, n);
    RowMajorBound(r, c, m, n);
    if r < m - 1 {
      GridLabelAt(g, m - 1, r, c);
    } else {
      assert r * n + c == |prev| + c;
    }
  }

  /**
   * The labels are numbered 1 .. rows*cols in row-major order, once each:
   * the k-th label reads "Room k+1".
   */
  lemma LayoutLabelsNumbered(g: Grid)
    ensures |LayoutLabels(g)| == Rows(g) * Cols(g)
    ensures forall k :: 0 <= k < |LayoutLabels(g)| ==> LayoutLabels(g)[k].text == RoomName(k + 1)
  {
    GridLabelsLength(g, Rows(g));
    forall k | 0 <= k < |LayoutLabels(g)|
      ensures LayoutLabels(g)[k].text == RoomName(k + 1)
    {
      var n := Cols(g);
      RowMajorSplit(k, Rows(g), n);
      var r: nat, c: nat := k / n, k % n;
      GridLabelAt(g, Rows(g), r, c);
      assert r * n + c == k;
      assert LayoutLabels(g)[k] == RoomLabel(g, r, c);
    }
  }

  /**
   * The label of the room in row r, column c is entry r*cols+c, lies on
   * that room's centre and reads "Room r*cols+c+1".
   */
  lemma LayoutLabelAt(g: Grid, r: nat, c: nat)
    requires r < Rows(g) && c < Cols(g)
    ensures r * Cols(g) + c < |LayoutLabels(g)|
    ensures LayoutLabels(g)[r * Cols(g) + c] == Label(CentreX(g, c), CentreZ(g, r), RoomName(r * Cols(g) + c + 1))
  {
    GridLabelAt(g, Rows(g), r, c);
  }

  /** No two labels of a layout read the same. */
  lemma LayoutLabelsDistinct(g: Grid, i: nat, j: nat)
    requires i < j < |LayoutLabels(g)|
    ensures LayoutLabels(g)[i].text != LayoutLabels(g)[j].text
  {
    LayoutLabelsNumbered(g);
    var a, b := LayoutLabels(g)[i].text, LayoutLabels(g)[j].text;
    if a == b {
      var prefix := "Room ";
      assert a[|prefix|..] == Decimal.ToDecimal(i + 1);
      assert b[|prefix|..] == Decimal.ToDecimal(j + 1);
      Decimal.ToDecimalInjective(i + 1, j + 1);
    }
  }

  /**
   * The four walls of the room in row r, column c, as they stand in the
   * layout: north and south walls across the full room width at z -/+ half
   * the room size, west and east walls along the full room depth at x -/+
   * half the room size, all of height 2 centred at y = 1, thickness 0.5.
   */
  lemma LayoutRoomWalls(g: Grid, r: nat, c: nat)
    requires r < Rows(g) && c < Cols(g)
    ensures var k, cx, cz, half := 4 * (r * Cols(g) + c), CentreX(g, c), CentreZ(g, r), g.roomSize / 2.0;
      k + 3 < |LayoutWalls(g)| &&
      LayoutWalls(g)[k] == Wall(cx, 1.0, cz - half, g.roomSize, 2.0, 0.5) &&
      LayoutWalls(g)[k + 1] == Wall(cx, 1.0, cz + half, g.roomSize, 2.0, 0.5) &&
      LayoutWalls(g)[k + 2] == Wall(cx - half, 1.0, cz, 0.5, 2.0, g.roomSize) &&
      LayoutWalls(g)[k + 3] == Wall(cx + half, 1.0, cz, 0.5, 2.0, g.roomSize)
  {
    LayoutWallAt(g, r, c, 0);
    LayoutWallAt(g, r, c, 1);
    LayoutWallAt(g, r, c, 2);
    LayoutWallAt(g, r, c, 3);
  }

  /**
   * A layout call with no options builds one room of size 10 at the origin:
   * its four walls stand at z = -5, z = 5, x = -5 and x = 5.
   */
  lemma DefaultLayout()
    ensures LayoutWalls(ResolveOptions(RoomsOptions(None, None, None))) ==
      [ Wall(0.0, 1.0, -5.0, 10.0, 2.0, 0.5),
        Wall(0.0, 1.0, 5.0, 10.0, 2.0, 0.5),
        Wall(-5.0, 1.0, 0.0, 0.5, 2.0, 10.0),
        Wall(5.0, 1.0, 0.0, 0.5, 2.0, 10.0) ]
  {
    var g := ResolveOptions(RoomsOptions(None, None, None));
    assert g == Grid(1, 1, 10.0);
    assert CentreX(g, 0) == 0.0 && CentreZ(g, 0) == 0.0;
    assert LayoutWalls(g) == GridWalls(g, 1) == RowWalls(g, 0, 1) == RoomWalls(g, 0, 0);
  }

  // ---------------------------------------------------------------------
  // Symmetry about the origin

  /** Room centres of mirror-image columns (and rows) are negatives of each other. */
  lemma CentresSymmetric(g: Grid, col: int, row: int)
    ensures CentreX(g, g.cols - 1 - col) == -CentreX(g, col)
    ensures CentreZ(g, g.rows - 1 - row) == -CentreZ(g, row)
  {
    assert (g.cols - 1 - col) as real * g.roomSize == g.cols as real * g.roomSize - g.roomSize - col as real * g.roomSize;
    assert (g.rows - 1 - row) as real * g.roomSize == g.rows as real * g.roomSize - g.roomSize - row as real * g.roomSize;
  }

  function MirrorX(w: Wall): Wall { w.(x := -w.x) }
  function MirrorZ(w: Wall): Wall { w.(z := -w.z) }

  /** Reflecting a room in x gives the mirror-column room with west and east swapped. */
  lemma RoomMirror(g: Grid, row: int, col: int)
    ensures forall w :: w in RoomWalls(g, row, col) ==> MirrorX(w) in RoomWalls(g, row, g.cols - 1 - col)
    ensures forall w :: w in RoomWalls(g, row, col) ==> MirrorZ(w) in RoomWalls(g, g.rows - 1 - row, col)
  {
    CentresSymmetric(g, col, row);
    var ws, wx, wz := RoomWalls(g, row, col), RoomWalls(g, row, g.cols - 1 - col), RoomWalls(g, g.rows - 1 - row, col);
    assert MirrorX(ws[0]) == wx[0] && MirrorX(ws[1]) == wx[1];
    assert MirrorX(ws[2]) == wx[3] && MirrorX(ws[3]) == wx[2];
    assert MirrorZ(ws[0]) == wz[1] && MirrorZ(ws[1]) == wz[0];
    assert MirrorZ(ws[2]) == wz[2] && MirrorZ(ws[3]) == wz[3];
  }

  /** Every entry of the layout is a wall of some room of the grid. */
  lemma LayoutEntryOfRoom(g: Grid, k: nat) returns (r: nat, c: nat)
    requires k < |LayoutWalls(g)|
    ensures r < Rows(g) && c < Cols(g) && LayoutWalls(g)[k] in RoomWalls(g, r, c)
  {
    var n := Cols(g);
    LayoutWallsAt(g);
    var cell := k / 4;
    assert cell < Rows(g) * n;
    RowMajorSplit(cell, Rows(g), n);
    r, c := cell / n, cell % n;
    var j := k % 4;
    LayoutWallAt(g, r, c, j);
    assert 4 * (r * n + c) + j == k;
  }

  /** Every wall of every room of the grid is in the layout. */
  lemma RoomWallInLayout(g: Grid, r: nat, c: nat, j: nat)
    requires r < Rows(g) && c < Cols(g) && j < 4
    ensures RoomWalls(g, r, c)[j] in LayoutWalls(g)
  {
    LayoutWallAt(g, r, c, j);
  }

  /** A wall belongs to the layout exactly when it is one of the walls of a room of the grid. */
  lemma LayoutWallsMembership(g: Grid, w: Wall)
    ensures w in LayoutWalls(g) <==>
      exists r, c :: 0 <= r < Rows(g) && 0 <= c < Cols(g) && w in RoomWalls(g, r, c)
  {
    if w in LayoutWalls(g) {
      var k :| 0 <= k < |LayoutWalls(g)| && LayoutWalls(g)[k] == w;
      var r, c := LayoutEntryOfRoom(g, k);
    }
    if exists r, c :: 0 <= r < Rows(g) && 0 <= c < Cols(g) && w in RoomWalls(g, r, c) {
      var r, c :| 0 <= r < Rows(g) && 0 <= c < Cols(g) && w in RoomWalls(g, r, c);
      var j :| 0 <= j < 4 && RoomWalls(g, r, c)[j] == w;
      RoomWallInLayout(g, r, c, j);
    }
  }

  /** The layout is symmetric about the origin on both axes. */
  lemma LayoutSymmetric(g: Grid, w: Wall)
    requires w in LayoutWalls(g)
    ensures MirrorX(w) in LayoutWalls(g)
    ensures MirrorZ(w) in LayoutWalls(g)
  {
    LayoutWallsMembership(g, w);
    var r, c :| 0 <= r < Rows(g) && 0 <= c < Cols(g) && w in RoomWalls(g, r, c);
    RoomMirror(g, r, c);
    LayoutWallsMembership(g, MirrorX(w));
    LayoutWallsMembership(g, MirrorZ(w));
  }
}
