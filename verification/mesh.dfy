/**
 * The mesher (main.go:51-131): the rendered grid is cut, row by row, into maximal horizontal
 * strips of solid pixels, and each strip becomes a closed box of 12 triangles standing on
 * z = 0. `RowRuns` is the run-length scan of one row, `MeshOf` the mesh of a whole grid; the
 * lemmas show the scan is lossless, its strips maximal and ordered, and the mesh 12 triangles
 * per strip.
 */
module Mesh {

  /** A vertex of the mesh, in millimetres (main.go:25-27). */
  datatype Point = Point(x: real, y: real, z: real)

  /** One facet of the mesh: three vertices, in order. */
  datatype Triangle = Triangle(a: Point, b: Point, c: Point)

  /** The resolution the mesher works at: 1000 dots per inch (main.go:15-18). */
  const DPI: real := 1000.0

  /** The side of one pixel in millimetres. */
  const PixelToMM: real := 25.4 / DPI

  // ------------------------------------------------------------ boxes

  /** The two triangles of a quad a-b-c-d: (a, b, c) and (c, d, a). */
  function Quad(a: Point, b: Point, c: Point, d: Point): seq<Triangle>
  {
    [Triangle(a, b, c), Triangle(c, d, a)]
  }

  /** A corner of the box [x, x + w] x [y, y + h] x [0, z], picked by three far-or-near choices. */
  function Corner(x: real, y: real, w: real, h: real, z: real, far_x: bool, far_y: bool, far_z: bool): Point
  {
    Point(if far_x then x + w else x, if far_y then y + h else y, if far_z then z else 0.0)
  }

  /**
   * Face f of the box, as the four corners `addQuad` receives: bottom, top, front, right, back
   * and left, in the order of main.go:70-75.
   */
  function Face(f: nat, x: real, y: real, w: real, h: real, z: real): (q: (Point, Point, Point, Point))
    requires f < 6
  {
    var c := (fx: bool, fy: bool, fz: bool) => Corner(x, y, w, h, z, fx, fy, fz);
    if f == 0 then (c(false, false, false), c(false, true, false), c(true, true, false), c(true, false, false))
    else if f == 1 then (c(true, false, true), c(true, true, true), c(false, true, true), c(false, false, true))
    else if f == 2 then (c(false, false, false), c(true, false, false), c(true, false, true), c(false, false, true))
    else if f == 3 then (c(true, false, false), c(true, true, false), c(true, true, true), c(true, false, true))
    else if f == 4 then (c(true, true, false), c(false, true, false), c(false, true, true), c(true, true, true))
    else (c(false, true, false), c(false, false, false), c(false, false, true), c(false, true, true))
  }

  /** Triangle k of a box: the first (even k) or second (odd k) half of face k / 2. */
  function Facet(k: nat, x: real, y: real, w: real, h: real, z: real): Triangle
    requires k < 12
  {
    var q := Face(k / 2, x, y, w, h, z);
    Quad(q.0, q.1, q.2, q.3)[k % 2]
  }

  /** The 12 triangles of the box [x, x + w] x [y, y + h] x [0, z], two per face (main.go:51-76). */
  function BoxTriangles(x: real, y: real, w: real, h: real, z: real): (t: seq<Triangle>)
    ensures |t| == 12
  {
    seq(12, k requires 0 <= k < 12 => Facet(k, x, y, w, h, z))
  }

  /** A vertex of the box: each coordinate is one of its two bounds on that axis. */
  predicate IsCorner(p: Point, x: real, y: real, w: real, h: real, z: real)
  {
    (p.x == x || p.x == x + w) && (p.y == y || p.y == y + h) && (p.z == 0.0 || p.z == z)
  }

  /** Three vertices on one face: they share their x, their y or their z. */
  predicate OnOneFace(t: Triangle)
  {
    (t.a.x == t.b.x == t.c.x) || (t.a.y == t.b.y == t.c.y) || (t.a.z == t.b.z == t.c.z)
  }

  /** Every vertex of a box is one of its eight corners, and every triangle lies in a face. */
  lemma BoxShape(x: real, y: real, w: real, h: real, z: real)
    ensures forall k :: 0 <= k < 12 ==>
      var t := BoxTriangles(x, y, w, h, z)[k];
      IsCorner(t.a, x, y, w, h, z) && IsCorner(t.b, x, y, w, h, z) && IsCorner(t.c, x, y, w, h, z) && OnOneFace(t)
  {
  }

  /** Every one of the eight corners is a vertex of the box's triangles. */
  lemma BoxUsesEveryCorner(x: real, y: real, w: real, h: real, z: real, p: Point)
    requires IsCorner(p, x, y, w, h, z)
    ensures exists k :: 0 <= k < 12 && p in {BoxTriangles(x, y, w, h, z)[k].a, BoxTriangles(x, y, w, h, z)[k].b, BoxTriangles(x, y, w, h, z)[k].c}
  {
    var t := BoxTriangles(x, y, w, h, z);
    if p.z == 0.0 {
      if p.x == x && p.y == y {
        assert p == t[0].a;
      } else if p.x == x {
        assert p == t[0].b;
      } else if p.y == y {
        assert p == t[1].b;
      } else {
        assert p == t[0].c;
      }
    } else {
      if p.x == x && p.y == y {
        assert p == t[3].b;
      } else if p.x == x {
        assert p == t[2].c;
      } else if p.y == y {
        assert p == t[2].a;
      } else {
        assert p == t[2].b;
      }
    }
  }

  /** The triangle list the mesher appends to (the `*[][3]Point` it passes around). */
  class TriangleList {
    var triangles: seq<Triangle>

    constructor()
      ensures triangles == []
    {
      triangles := [];
    }

    /** The `addQuad` closure of `AddBox`. */
    method AddQuad(a: Point, b: Point, c: Point, d: Point)
      modifies this
      ensures triangles == old(triangles) + Quad(a, b, c, d)
    {
      triangles := triangles + [Triangle(a, b, c)];
      triangles := triangles + [Triangle(c, d, a)];
    }

    /** `AddBox`: appends the box's 12 triangles and keeps every earlier one. */
    method AddBox(x: real, y: real, w: real, h: real, zHeight: real)
      modifies this
      ensures triangles == old(triangles) + BoxTriangles(x, y, w, h, zHeight)
    {
      var x0, y0 := x, y;
      var x1, y1 := x + w, y + h;
      var z0, z1 := 0.0, zHeight;
      var p000 := Point(x0, y0, z0);
      var p100 := Point(x1, y0, z0);
      var p110 := Point(x1, y1, z0);
      var p010 := Point(x0, y1, z0);
      var p001 := Point(x0, y0, z1);
      var p101 := Point(x1, y0, z1);
      var p111 := Point(x1, y1, z1);
      var p011 := Point(x0, y1, z1);
      AddQuad(p000, p010, p110, p100);
      AddQuad(p101, p111, p011, p001);
      AddQuad(p000, p100, p101, p001);
      AddQuad(p100, p110, p111, p101);
      AddQuad(p110, p010, p011, p111);
      AddQuad(p010, p000, p001, p011);
    }
  }

  // ------------------------------------------------------------ the run-length scan

  /** A strip of `len` solid pixels starting at column `start`. */
  datatype Run = Run(start: nat, len: nat)

  /** The scan of a row so far: the strips closed, and the start of the open one, or -1 (`startX`). */
  datatype Scan = Scan(runs: seq<Run>, open: int)

  /** The strip closed at a clear pixel `x`, appended to the closed ones. */
  function Closed(s: Scan, x: nat): seq<Run>
    requires 0 <= s.open <= x
  {
    s.runs + [Run(s.open, x - s.open)]
  }

  /**
   * The scan after pixel `x`: a solid pixel opens a strip unless one is open, a clear pixel
   * closes the open strip, if any (main.go:94-116).
   */
  function Advance(s: Scan, x: nat, solid: bool): Scan
    requires -1 <= s.open <= x
  {
    if solid then (if s.open == -1 then Scan(s.runs, x) else s)
    else if s.open != -1 then Scan(Closed(s, x), -1)
    else s
  }

  /** The scan after the first `x` pixels of a row. */
  function ScanRow(row: seq<bool>, x: nat): (s: Scan)
    requires x <= |row|
    ensures -1 <= s.open < x
  {
    if x == 0 then Scan([], -1) else Advance(ScanRow(row, x - 1), x - 1, row[x - 1])
  }

  /** The strips of a whole row: a strip still open at the end runs to the last column (main.go:118-128). */
  function RowRuns(row: seq<bool>): seq<Run>
  {
    var s := ScanRow(row, |row|);
    if s.open != -1 then s.runs + [Run(s.open, |row| - s.open)] else s.runs
  }

  predicate Within(r: Run, x: int)
  {
    r.start <= x < r.start + r.len
  }

  /** Some strip of the list holds column `x`. */
  predicate Covered(runs: seq<Run>, x: int)
  {
    runs != [] && (Covered(runs[..|runs| - 1], x) || Within(runs[|runs| - 1], x))
  }

  /** A non-empty strip of solid pixels inside the row. */
  predicate SolidRun(row: seq<bool>, r: Run)
  {
    0 < r.len && r.start + r.len <= |row| && forall x :: r.start <= x < r.start + r.len ==> row[x]
  }

  /** A strip that cannot be widened: the pixel on either side is clear or beyond the row. */
  predicate Maximal(row: seq<bool>, r: Run)
    requires r.start + r.len <= |row|
  {
    (r.start == 0 || !row[r.start - 1]) && (r.start + r.len == |row| || !row[r.start + r.len])
  }

  /** Strips left to right with at least one clear pixel between neighbours. */
  predicate Ordered(runs: seq<Run>)
  {
    forall i :: 0 <= i < |runs| - 1 ==> runs[i].start + runs[i].len < runs[i + 1].start
  }

  /** The number of solid pixels of a row. */
  function Count(row: seq<bool>): nat
  {
    if row == [] then 0 else Count(row[..|row| - 1]) + (if row[|row| - 1] then 1 else 0)
  }

  /** The number of pixels the strips hold. */
  function Total(runs: seq<Run>): nat
  {
    if runs == [] then 0 else Total(runs[..|runs| - 1]) + runs[|runs| - 1].len
  }

  /** The shape of a scan after `x` pixels: closed strips solid, maximal, ordered and left of the open one. */
  ghost predicate ScanShape(row: seq<bool>, x: nat, s: Scan)
    requires x <= |row|
  {
    && -1 <= s.open < x
    && (forall i :: 0 <= i < |s.runs| ==>
         SolidRun(row, s.runs[i]) && s.runs[i].start + s.runs[i].len < x && Maximal(row, s.runs[i]))
    && Ordered(s.runs)
    && (s.open != -1 ==>
         && (forall p :: s.open <= p < x ==> row[p])
         && (s.open == 0 || !row[s.open - 1])
         && (s.runs == [] || s.runs[|s.runs| - 1].start + s.runs[|s.runs| - 1].len < s.open))
    && (s.open == -1 ==> x == 0 || !row[x - 1])
  }

  /** The closed strips of a scan after `x` pixels hold exactly the solid pixels left of the open strip. */
  ghost predicate ScanCover(row: seq<bool>, x: nat, s: Scan)
    requires x <= |row|
  {
    && (forall p :: 0 <= p < x && (s.open == -1 || p < s.open) ==> (row[p] <==> Covered(s.runs, p)))
    && (forall p :: (p < 0 || p >= x || (s.open != -1 && p >= s.open)) ==> !Covered(s.runs, p))
  }

  /** Covered by an appended strip: covered before, or inside the new strip. */
  lemma CoveredSnoc(runs: seq<Run>, r: Run, x: int)
    ensures Covered(runs + [r], x) <==> Covered(runs, x) || Within(r, x)
  {
    assert (runs + [r])[..|runs|] == runs;
  }

  /** A solid pixel keeps the shape. */
  lemma ShapeSolid(row: seq<bool>, x: nat, s: Scan)
    requires x < |row| && row[x] && ScanShape(row, x, s)
    ensures ScanShape(row, x + 1, Advance(s, x, true))
  {
  }

  /** A clear pixel with no open strip keeps the shape. */
  lemma ShapeClear(row: seq<bool>, x: nat, s: Scan)
    requires x < |row| && !row[x] && s.open == -1 && ScanShape(row, x, s)
    ensures ScanShape(row, x + 1, Advance(s, x, false))
  {
  }

  /** A clear pixel closing the open strip keeps the shape. */
  lemma ShapeClose(row: seq<bool>, x: nat, s: Scan)
    requires x < |row| && !row[x] && s.open != -1 && ScanShape(row, x, s)
    ensures ScanShape(row, x + 1, Advance(s, x, false))
  {
    ClosedRuns(row, x, s);
  }

  /** The strip a clear pixel or the row's end closes is solid, maximal and right of the others. */
  lemma ClosedRuns(row: seq<bool>, x: nat, s: Scan)
    requires x <= |row| && (x == |row| || !row[x]) && s.open != -1 && ScanShape(row, x, s)
    ensures var runs := Closed(s, x);
      && (forall i :: 0 <= i < |runs| ==>
           SolidRun(row, runs[i]) && runs[i].start + runs[i].len < x + 1 && Maximal(row, runs[i]))
      && Ordered(runs)
  {
    var runs := Closed(s, x);
    assert forall i :: 0 <= i < |s.runs| ==> runs[i] == s.runs[i];
    assert SolidRun(row, runs[|runs| - 1]);
  }

  /** Any pixel keeps the shape. */
  lemma ShapeStep(row: seq<bool>, x: nat, s: Scan)
    requires x < |row| && ScanShape(row, x, s)
    ensures ScanShape(row, x + 1, Advance(s, x, row[x]))
  {
    if row[x] {
      ShapeSolid(row, x, s);
    } else if s.open == -1 {
      ShapeClear(row, x, s);
    } else {
      ShapeClose(row, x, s);
    }
  }

  /** The scan keeps its shape pixel by pixel. */
  lemma {:induction false} ScanRowShape(row: seq<bool>, x: nat)
    requires x <= |row|
    ensures ScanShape(row, x, ScanRow(row, x))
  {
    if x > 0 {
      ScanRowShape(row, x - 1);
      ShapeStep(row, x - 1, ScanRow(row, x - 1));
    }
  }

  /** A clear pixel closing the open strip keeps the cover. */
  lemma CoverClose(row: seq<bool>, x: nat, s: Scan)
    requires x < |row| && !row[x] && s.open != -1 && ScanShape(row, x, s) && ScanCover(row, x, s)
    ensures ScanCover(row, x + 1, Advance(s, x, false))
  {
    var r := Run(s.open, x - s.open);
    forall p ensures Covered(Closed(s, x), p) <==> Covered(s.runs, p) || Within(r, p) {
      CoveredSnoc(s.runs, r, p);
    }
  }

  /** Any other pixel keeps the cover. */
  lemma CoverKeep(row: seq<bool>, x: nat, s: Scan)
    requires x < |row| && (row[x] || s.open == -1) && -1 <= s.open <= x && ScanCover(row, x, s)
    ensures ScanCover(row, x + 1, Advance(s, x, row[x]))
  {
  }

  /** The closed strips cover exactly the solid pixels already passed and not in the open strip. */
  lemma {:induction false} ScanRowCover(row: seq<bool>, x: nat)
    requires x <= |row|
    ensures ScanCover(row, x, ScanRow(row, x))
  {
    if x > 0 {
      ScanRowCover(row, x - 1);
      var s := ScanRow(row, x - 1);
      if !row[x - 1] && s.open != -1 {
        ScanRowShape(row, x - 1);
        CoverClose(row, x - 1, s);
      } else {
        CoverKeep(row, x - 1, s);
      }
    }
  }

  /** The closed strips and the open one hold as many pixels as the row has solid ones so far. */
  lemma {:induction false} ScanRowCount(row: seq<bool>, x: nat)
    requires x <= |row|
    ensures var s := ScanRow(row, x);
      Total(s.runs) + (if s.open == -1 then 0 else x - s.open) == Count(row[..x])
  {
    if x > 0 {
      ScanRowCount(row, x - 1);
      var s := ScanRow(row, x - 1);
      assert row[..x][..x - 1] == row[..x - 1];
      if !row[x - 1] && s.open != -1 {
        assert Closed(s, x - 1)[..|s.runs|] == s.runs;
      }
    }
  }

  /** Each strip of a row is solid and maximal, and the strips are ordered and separated. */
  lemma RowRunsShape(row: seq<bool>)
    ensures var runs := RowRuns(row);
      (forall i :: 0 <= i < |runs| ==> SolidRun(row, runs[i]) && Maximal(row, runs[i])) && Ordered(runs)
  {
    ScanRowShape(row, |row|);
    var s := ScanRow(row, |row|);
    if s.open != -1 {
      ClosedRuns(row, |row|, s);
    }
  }

  /** A pixel is solid iff some strip of its row holds it. */
  lemma RowRunsCover(row: seq<bool>)
    ensures forall x :: 0 <= x < |row| ==> (row[x] <==> Covered(RowRuns(row), x))
  {
    ScanRowShape(row, |row|);
    ScanRowCover(row, |row|);
    var s := ScanRow(row, |row|);
    if s.open != -1 {
      var r := Run(s.open, |row| - s.open);
      forall p ensures Covered(Closed(s, |row|), p) <==> Covered(s.runs, p) || Within(r, p) {
        CoveredSnoc(s.runs, r, p);
      }
    }
  }

  /** The strips of a row hold as many pixels as the row has solid ones: the scan is lossless. */
  lemma RowRunsCount(row: seq<bool>)
    ensures Total(RowRuns(row)) == Count(row)
  {
    ScanRowCount(row, |row|);
    var s := ScanRow(row, |row|);
    assert row[..|row|] == row;
    if s.open != -1 {
      assert Closed(s, |row|)[..|s.runs|] == s.runs;
    }
  }

  /** Scanning clear pixels opens no strip. */
  lemma {:induction false} ClearScan(row: seq<bool>, x: nat)
    requires x <= |row| && forall p :: 0 <= p < |row| ==> !row[p]
    ensures ScanRow(row, x) == Scan([], -1)
  {
    if x > 0 {
      ClearScan(row, x - 1);
    }
  }

  /** A row with no solid pixel has no strips. */
  lemma ClearRowNoRuns(row: seq<bool>)
    requires forall p :: 0 <= p < |row| ==> !row[p]
    ensures RowRuns(row) == []
  {
    ClearScan(row, |row|);
  }

  /** Scanning solid pixels keeps one strip open from column 0. */
  lemma {:induction false} SolidScan(row: seq<bool>, x: nat)
    requires 0 < x <= |row| && forall p :: 0 <= p < |row| ==> row[p]
    ensures ScanRow(row, x) == Scan([], 0)
  {
    if x > 1 {
      SolidScan(row, x - 1);
    }
  }

  /** A row solid from end to end is one strip across it. */
  lemma SolidRowOneRun(row: seq<bool>)
    requires |row| > 0 && forall p :: 0 <= p < |row| ==> row[p]
    ensures RowRuns(row) == [Run(0, |row|)]
  {
    SolidScan(row, |row|);
  }

  // ------------------------------------------------------------ the mesh

  /** The box of one strip of row `y`: one pixel tall, from z = 0 to the stencil height. */
  function RunBox(r: Run, y: nat, zHeight: real): seq<Triangle>
  {
    BoxTriangles(r.start as real * PixelToMM, y as real * PixelToMM, r.len as real * PixelToMM, PixelToMM, zHeight)
  }

  /** The boxes of a row's strips, left to right. */
  function RunBoxes(runs: seq<Run>, y: nat, zHeight: real): seq<Triangle>
  {
    if runs == [] then []
    else RunBoxes(runs[..|runs| - 1], y, zHeight) + RunBox(runs[|runs| - 1], y, zHeight)
  }

  /** The mesh of a grid given as rows (`grid[y][x]`, true for solid): each row's boxes, top row first. */
  function MeshOf(grid: seq<seq<bool>>, zHeight: real): seq<Triangle>
  {
    if grid == [] then []
    else MeshOf(grid[..|grid| - 1], zHeight) + RunBoxes(RowRuns(grid[|grid| - 1]), |grid| - 1, zHeight)
  }

  /** The number of strips of all rows. */
  function RunCount(grid: seq<seq<bool>>): nat
  {
    if grid == [] then 0 else RunCount(grid[..|grid| - 1]) + |RowRuns(grid[|grid| - 1])|
  }

  /** A slice inside the left part of a concatenation is a slice of that part. */
  lemma SliceLeft(a: seq<Triangle>, b: seq<Triangle>, i: nat, j: nat)
    requires i <= j <= |a|
    ensures (a + b)[i..j] == a[i..j]
  {
  }

  /** The right part of a concatenation, sliced back out. */
  lemma SliceRight(a: seq<Triangle>, b: seq<Triangle>)
    ensures (a + b)[|a|..|a| + |b|] == b
  {
  }

  /** Box k of a row's list is the box of strip k. */
  lemma {:induction false} RunBoxesLayout(runs: seq<Run>, y: nat, zHeight: real)
    ensures |RunBoxes(runs, y, zHeight)| == 12 * |runs|
    ensures forall k :: 0 <= k < |runs| ==>
      RunBoxes(runs, y, zHeight)[12 * k .. 12 * k + 12] == RunBox(runs[k], y, zHeight)
  {
    if runs != [] {
      var init := runs[..|runs| - 1];
      RunBoxesLayout(init, y, zHeight);
      var a, b := RunBoxes(init, y, zHeight), RunBox(runs[|runs| - 1], y, zHeight);
      assert RunBoxes(runs, y, zHeight) == a + b;
      forall k | 0 <= k < |runs|
        ensures RunBoxes(runs, y, zHeight)[12 * k .. 12 * k + 12] == RunBox(runs[k], y, zHeight)
      {
        if k < |init| {
          assert runs[k] == init[k];
          SliceLeft(a, b, 12 * k, 12 * k + 12);
        } else {
          assert 12 * k == |a| && 12 * k + 12 == |a| + |b|;
          SliceRight(a, b);
        }
      }
    }
  }

  /** The mesh has 12 triangles per strip. */
  lemma {:induction false} MeshSize(grid: seq<seq<bool>>, zHeight: real)
    ensures |MeshOf(grid, zHeight)| == 12 * RunCount(grid)
  {
    if grid != [] {
      MeshSize(grid[..|grid| - 1], zHeight);
      RunBoxesLayout(RowRuns(grid[|grid| - 1]), |grid| - 1, zHeight);
    }
  }

  /** A grid with no solid pixel gives an empty mesh. */
  lemma {:induction false} ClearGridNoMesh(grid: seq<seq<bool>>, zHeight: real)
    requires forall y, x :: 0 <= y < |grid| && 0 <= x < |grid[y]| ==> !grid[y][x]
    ensures MeshOf(grid, zHeight) == []
  {
    if grid != [] {
      ClearGridNoMesh(grid[..|grid| - 1], zHeight);
      var row := grid[|grid| - 1];
      ClearRowNoRuns(row);
    }
  }

  // ------------------------------------------------------------ the mesher

  /** Row `y` of the grid, left to right (`img.At(x, y)` for every x). */
  function Row(img: array2<bool>, y: nat): (row: seq<bool>)
    requires y < img.Length1
    reads img
    ensures |row| == img.Length0 && forall x :: 0 <= x < img.Length0 ==> row[x] == img[x, y]
  {
    seq(img.Length0, x requires 0 <= x < img.Length0 reads img => img[x, y])
  }

  /** The grid as rows, top to bottom. */
  function Grid(img: array2<bool>): (grid: seq<seq<bool>>)
    reads img
    ensures |grid| == img.Length1 && forall y :: 0 <= y < img.Length1 ==> grid[y] == Row(img, y)
  {
    seq(img.Length1, y requires 0 <= y < img.Length1 reads img => Row(img, y))
  }

  lemma AppendAssoc(a: seq<Triangle>, b: seq<Triangle>, c: seq<Triangle>)
    ensures (a + b) + c == a + (b + c)
  {
  }

  /** Closing a strip appends its box. */
  lemma RunBoxesClosed(s: Scan, x: nat, y: nat, zHeight: real)
    requires 0 <= s.open <= x
    ensures RunBoxes(Closed(s, x), y, zHeight) == RunBoxes(s.runs, y, zHeight) + RunBox(Run(s.open, x - s.open), y, zHeight)
  {
    assert Closed(s, x)[..|s.runs|] == s.runs;
  }

  /**
   * Appends the box of the open strip of a scan, closed at column `stop` of row `y` (the `AddBox`
   * calls of main.go:103-115 and 118-128).
   */
  method AddStrip(list: TriangleList, start: nat, stop: nat, y: nat, stencilHeight: real, ghost before: seq<Triangle>, ghost s: Scan)
    requires s.open == start <= stop && list.triangles == before + RunBoxes(s.runs, y, stencilHeight)
    modifies list
    ensures list.triangles == before + RunBoxes(Closed(s, stop), y, stencilHeight)
  {
    var strip := Run(start, stop - start);
    list.AddBox(strip.start as real * PixelToMM, y as real * PixelToMM, strip.len as real * PixelToMM, PixelToMM, stencilHeight);
    AppendAssoc(before, RunBoxes(s.runs, y, stencilHeight), RunBox(strip, y, stencilHeight));
    RunBoxesClosed(s, stop, y, stencilHeight);
  }

  /** One row of the mesher: the inner loop and the strip left open at the row's end (main.go:87-129). */
  method MeshRow(img: array2<bool>, y: nat, list: TriangleList, stencilHeight: real)
    requires y < img.Length1
    modifies list
    ensures list.triangles == old(list.triangles) + RunBoxes(RowRuns(Row(img, y)), y, stencilHeight)
  {
    var width := img.Length0;
    ghost var row := Row(img, y);
    ghost var before := list.triangles;
    ghost var scan := Scan([], -1);
    var startX := -1;
    for x := 0 to width
      invariant scan == ScanRow(row, x)
      invariant startX == scan.open
      invariant list.triangles == before + RunBoxes(scan.runs, y, stencilHeight)
    {
      assert img[x, y] == row[x];
      if img[x, y] {
        if startX == -1 {
          startX := x;
        }
      } else {
        if startX != -1 {
          AddStrip(list, startX, x, y, stencilHeight, before, scan);
          startX := -1;
        }
      }
      assert ScanRow(row, x + 1) == Advance(scan, x, row[x]);
      scan := Advance(scan, x, img[x, y]);
    }
    if startX != -1 {
      AddStrip(list, startX, width, y, stencilHeight, before, scan);
    }
    RowBoxesOfScan(list.triangles, before, row, scan, y, stencilHeight);
    assert unchanged(img);
    assert Row(img, y) == row;
  }

  /** The boxes of a row, from the scan of all its pixels: a strip left open closes at the row's end. */
  lemma RowBoxesOfScan(t: seq<Triangle>, before: seq<Triangle>, row: seq<bool>, s: Scan, y: nat, zHeight: real)
    requires s == ScanRow(row, |row|)
    requires t == before + RunBoxes(if s.open != -1 then Closed(s, |row|) else s.runs, y, zHeight)
    ensures t == before + RunBoxes(RowRuns(row), y, zHeight)
  {
  }

  /** The mesh of the first y + 1 rows: that of the first y rows, then row y's boxes. */
  lemma MeshOfSnoc(grid: seq<seq<bool>>, y: nat, zHeight: real)
    requires y < |grid|
    ensures MeshOf(grid[..y + 1], zHeight) == MeshOf(grid[..y], zHeight) + RunBoxes(RowRuns(grid[y]), y, zHeight)
  {
    assert grid[..y + 1][..y] == grid[..y];
  }

  /**
   * `GenerateMeshFromImage`: scans each row once, left to right, closing a strip at the first
   * clear pixel after it or at the end of the row, and appends one box per strip, top row first.
   */
  method GenerateMeshFromImage(img: array2<bool>, stencilHeight: real) returns (triangles: seq<Triangle>)
    ensures triangles == MeshOf(Grid(img), stencilHeight)
  {
    var height := img.Length1;
    ghost var grid := Grid(img);
    var list := new TriangleList();
    for y := 0 to height
      invariant list.triangles == MeshOf(grid[..y], stencilHeight)
    {
      MeshRow(img, y, list, stencilHeight);
      MeshOfSnoc(grid, y, stencilHeight);
    }
    assert grid[..height] == grid;
    triangles := list.triangles;
  }
}
