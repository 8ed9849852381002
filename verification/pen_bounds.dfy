/**
 * `CalculateBounds` (gerber.go:222-277): the extent of everything a file draws, padded by 2 mm.
 * The pen starts at (0, 0) and each command moves it on the axes it names; a FLASH contributes
 * the pen's new position and a DRAW both ends of its segment.
 */
module PenBounds {
  import opened Optional
  import opened GerberTypes

  datatype Point = Point(x: real, y: real)

  datatype Bounds = Bounds(minX: real, minY: real, maxX: real, maxY: real)

  /** Millimetres added on every side (gerber.go:270-274). */
  const Padding: real := 2.0

  /** The pen after `cmd`: each axis the command names replaces that coordinate. */
  function MoveTo(pen: Point, cmd: Command): Point
  {
    Point(cmd.x.GetOr(pen.x), cmd.y.GetOr(pen.y))
  }

  /** The pen after a command list, starting from (0, 0). */
  function PenAfter(cmds: seq<Command>): Point
  {
    if cmds == [] then Point(0.0, 0.0) else MoveTo(PenAfter(cmds[..|cmds| - 1]), cmds[|cmds| - 1])
  }

  /** The points one command contributes, given the pen before it. */
  function CommandPoints(pen: Point, cmd: Command): seq<Point>
  {
    match cmd.kind
    case Flash => [MoveTo(pen, cmd)]
    case Draw => [pen, MoveTo(pen, cmd)]
    case _ => []
  }

  /** Every point a command list contributes, in order. */
  function Contributors(cmds: seq<Command>): seq<Point>
  {
    if cmds == [] then []
    else
      var init := cmds[..|cmds| - 1];
      Contributors(init) + CommandPoints(PenAfter(init), cmds[|cmds| - 1])
  }

  /** The box `b` widened to take in `p` (the Go closure `updateBounds`). */
  function Grow(b: Bounds, p: Point): Bounds
  {
    Bounds(if p.x < b.minX then p.x else b.minX,
           if p.y < b.minY then p.y else b.minY,
           if p.x > b.maxX then p.x else b.maxX,
           if p.y > b.maxY then p.y else b.maxY)
  }

  /** The smallest box holding every point of a non-empty list. */
  function Extent(points: seq<Point>): Bounds
    requires points != []
  {
    if |points| == 1 then Bounds(points[0].x, points[0].y, points[0].x, points[0].y)
    else Grow(Extent(points[..|points| - 1]), points[|points| - 1])
  }

  /** The box `CalculateBounds` returns: the extent of the contributors, or 0..10 when there are none, padded. */
  function BoundsOf(cmds: seq<Command>): Bounds
  {
    var points := Contributors(cmds);
    var b := if points == [] then Bounds(0.0, 0.0, 10.0, 10.0) else Extent(points);
    Bounds(b.minX - Padding, b.minY - Padding, b.maxX + Padding, b.maxY + Padding)
  }

  predicate Inside(b: Bounds, p: Point)
  {
    b.minX <= p.x <= b.maxX && b.minY <= p.y <= b.maxY
  }

  /** Every point lies in the extent, and each edge of the extent is reached by one of the points. */
  lemma {:induction false} ExtentTight(points: seq<Point>)
    requires points != []
    ensures forall i :: 0 <= i < |points| ==> Inside(Extent(points), points[i])
    ensures exists i :: 0 <= i < |points| && points[i].x == Extent(points).minX
    ensures exists i :: 0 <= i < |points| && points[i].y == Extent(points).minY
    ensures exists i :: 0 <= i < |points| && points[i].x == Extent(points).maxX
    ensures exists i :: 0 <= i < |points| && points[i].y == Extent(points).maxY
  {
    if |points| > 1 {
      var init := points[..|points| - 1];
      var p := points[|points| - 1];
      var e := Extent(init);
      ExtentTight(init);
      forall i | 0 <= i < |init|
        ensures points[i] == init[i]
      {
      }
      if p.x < e.minX {
        assert points[|points| - 1].x == Extent(points).minX;
      } else {
        var i :| 0 <= i < |init| && init[i].x == e.minX;
        assert points[i].x == Extent(points).minX;
      }
      if p.y < e.minY {
        assert points[|points| - 1].y == Extent(points).minY;
      } else {
        var i :| 0 <= i < |init| && init[i].y == e.minY;
        assert points[i].y == Extent(points).minY;
      }
      if p.x > e.maxX {
        assert points[|points| - 1].x == Extent(points).maxX;
      } else {
        var i :| 0 <= i < |init| && init[i].x == e.maxX;
        assert points[i].x == Extent(points).maxX;
      }
      if p.y > e.maxY {
        assert points[|points| - 1].y == Extent(points).maxY;
      } else {
        var i :| 0 <= i < |init| && init[i].y == e.maxY;
        assert points[i].y == Extent(points).maxY;
      }
    } else {
      assert points[0].x == Extent(points).minX;
    }
  }

  /**
   * The box is the contributors' extent padded by 2 mm: every contributor lies at least 2 mm
   * inside each edge, and each edge is exactly 2 mm beyond some contributor.
   */
  lemma BoundsContain(cmds: seq<Command>)
    requires Contributors(cmds) != []
    ensures var b := BoundsOf(cmds); var points := Contributors(cmds);
      && (forall i :: 0 <= i < |points| ==>
            b.minX + Padding <= points[i].x <= b.maxX - Padding && b.minY + Padding <= points[i].y <= b.maxY - Padding)
      && (exists i :: 0 <= i < |points| && points[i].x == b.minX + Padding)
      && (exists i :: 0 <= i < |points| && points[i].y == b.minY + Padding)
      && (exists i :: 0 <= i < |points| && points[i].x == b.maxX - Padding)
      && (exists i :: 0 <= i < |points| && points[i].y == b.maxY - Padding)
  {
    ExtentTight(Contributors(cmds));
  }

  /** With nothing flashed or drawn the box is the default (-2, -2)..(12, 12). */
  lemma BoundsDefault(cmds: seq<Command>)
    requires Contributors(cmds) == []
    ensures BoundsOf(cmds) == Bounds(-2.0, -2.0, 12.0, 12.0)
  {
  }

  /** The box is always at least 4 mm wide and 4 mm tall. */
  lemma BoundsSpan(cmds: seq<Command>)
    ensures BoundsOf(cmds).maxX - BoundsOf(cmds).minX >= 2.0 * Padding
    ensures BoundsOf(cmds).maxY - BoundsOf(cmds).minY >= 2.0 * Padding
  {
    var points := Contributors(cmds);
    if points != [] {
      ExtentOrdered(points);
    }
  }

  lemma {:induction false} ExtentOrdered(points: seq<Point>)
    requires points != []
    ensures Extent(points).minX <= Extent(points).maxX && Extent(points).minY <= Extent(points).maxY
  {
    if |points| > 1 {
      ExtentOrdered(points[..|points| - 1]);
    }
  }

  /** Commands other than FLASH and DRAW move the pen but contribute nothing. */
  lemma ContributorsOfMove(cmds: seq<Command>, cmd: Command)
    requires cmd.kind != Flash && cmd.kind != Draw
    ensures Contributors(cmds + [cmd]) == Contributors(cmds)
    ensures PenAfter(cmds + [cmd]) == MoveTo(PenAfter(cmds), cmd)
  {
    assert (cmds + [cmd])[..|cmds|] == cmds;
  }

  /**
   * The loop of gerber.go:244-262 and the default and padding of 264-276; `found` stands for the
   * Go code's test of `minX` against its starting value.
   */
  method CalculateBounds(cmds: seq<Command>) returns (b: Bounds)
    ensures b == BoundsOf(cmds)
  {
    var box := Bounds(0.0, 0.0, 0.0, 0.0);
    var found := false;
    var curX, curY := 0.0, 0.0;
    for i := 0 to |cmds|
      invariant Point(curX, curY) == PenAfter(cmds[..i])
      invariant found <==> Contributors(cmds[..i]) != []
      invariant found ==> box == Extent(Contributors(cmds[..i]))
    {
      ContributorsStep(cmds, i);
      ghost var points := Contributors(cmds[..i]);
      var cmd := cmds[i];
      var prev := Point(curX, curY);
      if cmd.x.Some? {
        curX := cmd.x.value;
      }
      if cmd.y.Some? {
        curY := cmd.y.value;
      }
      assert MoveTo(prev, cmd) == Point(curX, curY);
      if cmd.kind == Flash {
        box, found := Include(box, found, Point(curX, curY));
        ExtentSnoc(points, Point(curX, curY));
        assert box == Extent(points + CommandPoints(prev, cmd));
      } else if cmd.kind == Draw {
        box, found := Include(box, found, prev);
        ExtentSnoc(points, prev);
        box, found := Include(box, found, Point(curX, curY));
        ExtentSnoc2(points, prev, Point(curX, curY));
        assert box == Extent(points + CommandPoints(prev, cmd));
      } else {
        assert points + CommandPoints(prev, cmd) == points;
      }
    }
    assert cmds[..|cmds|] == cmds;
    if !found {
      box := Bounds(0.0, 0.0, 10.0, 10.0);
    }
    b := Bounds(box.minX - Padding, box.minY - Padding, box.maxX + Padding, box.maxY + Padding);
  }

  /** One more command: the pen moves, and the command's points are added after the earlier ones. */
  lemma ContributorsStep(cmds: seq<Command>, i: nat)
    requires i < |cmds|
    ensures PenAfter(cmds[..i + 1]) == MoveTo(PenAfter(cmds[..i]), cmds[i])
    ensures Contributors(cmds[..i + 1]) == Contributors(cmds[..i]) + CommandPoints(PenAfter(cmds[..i]), cmds[i])
  {
    assert cmds[..i + 1][..i] == cmds[..i];
  }

  /** `updateBounds`: start the box at `p` when it is the first point, widen it otherwise. */
  method Include(box: Bounds, found: bool, p: Point) returns (box': Bounds, found': bool)
    ensures found'
    ensures box' == if found then Grow(box, p) else Bounds(p.x, p.y, p.x, p.y)
  {
    found' := true;
    if !found {
      box' := Bounds(p.x, p.y, p.x, p.y);
      return;
    }
    var minX, minY, maxX, maxY := box.minX, box.minY, box.maxX, box.maxY;
    if p.x < minX {
      minX := p.x;
    }
    if p.y < minY {
      minY := p.y;
    }
    if p.x > maxX {
      maxX := p.x;
    }
    if p.y > maxY {
      maxY := p.y;
    }
    box' := Bounds(minX, minY, maxX, maxY);
  }

  /** The extent of a list with one more point. */
  lemma ExtentSnoc(points: seq<Point>, p: Point)
    ensures Extent(points + [p]) == if points == [] then Bounds(p.x, p.y, p.x, p.y) else Grow(Extent(points), p)
  {
    assert (points + [p])[..|points|] == points;
  }

  /** The extent of a list with two more points. */
  lemma ExtentSnoc2(points: seq<Point>, p: Point, q: Point)
    ensures Extent(points + [p, q]) == Grow(Extent(points + [p]), q)
  {
    assert (points + [p, q])[..|points| + 1] == points + [p];
  }

  // ------------------------------------------------------------ the sentinel, as written

  /** The Go code's starting box: minimums at 1e9 and maximums at -1e9 (gerber.go:227-228). */
  const Sentinel: Bounds := Bounds(1000000000.0, 1000000000.0, -1000000000.0, -1000000000.0)

  /** The box grown from the sentinel over a list of points. */
  function GrowAll(b: Bounds, points: seq<Point>): Bounds
  {
    if points == [] then b else Grow(GrowAll(b, points[..|points| - 1]), points[|points| - 1])
  }

  /** The box as gerber.go:226-276 computes it: "nothing drawn" is decided by `minX` still being 1e9. */
  function BoundsAsWritten(cmds: seq<Command>): Bounds
  {
    var g := GrowAll(Sentinel, Contributors(cmds));
    var b := if g.minX == Sentinel.minX then Bounds(0.0, 0.0, 10.0, 10.0) else g;
    Bounds(b.minX - Padding, b.minY - Padding, b.maxX + Padding, b.maxY + Padding)
  }

  /**
   * A single flash at x = 1e9 leaves `minX` at its starting value, so the code as written
   * falls back to the default box, which does not contain the flash.
   */
  lemma SentinelMissesFlash()
    ensures var cmds := [Command(Flash, Some(1000000000.0), Some(0.0), Some(3))];
      && Contributors(cmds) == [Point(1000000000.0, 0.0)]
      && BoundsAsWritten(cmds) == Bounds(-2.0, -2.0, 12.0, 12.0)
      && BoundsOf(cmds) == Bounds(999999998.0, -2.0, 1000000002.0, 2.0)
  {
    var cmds := [Command(Flash, Some(1000000000.0), Some(0.0), Some(3))];
    assert cmds[..0] == [];
    assert Contributors(cmds) == [Point(1000000000.0, 0.0)];
    var points := Contributors(cmds);
    assert points[..0] == [];
  }

  /**
   * A single flash at x = -2e9 never raises `maxX` above its starting value -1e9, so the box as
   * written reaches 1e9 past the flash on the right.
   */
  lemma SentinelCapsMaximum()
    ensures var cmds := [Command(Flash, Some(-2000000000.0), Some(0.0), Some(3))];
      && Contributors(cmds) == [Point(-2000000000.0, 0.0)]
      && BoundsAsWritten(cmds) == Bounds(-2000000002.0, -2.0, -999999998.0, 2.0)
      && BoundsOf(cmds) == Bounds(-2000000002.0, -2.0, -1999999998.0, 2.0)
  {
    var cmds := [Command(Flash, Some(-2000000000.0), Some(0.0), Some(3))];
    assert cmds[..0] == [];
    assert Contributors(cmds) == [Point(-2000000000.0, 0.0)];
    var points := Contributors(cmds);
    assert points[..0] == [];
  }

  /** Within +-1e9 on both axes the sentinel and the corrected test agree. */
  lemma {:induction false} GrowAllFromSentinel(points: seq<Point>)
    requires points != []
    requires forall i :: 0 <= i < |points| ==>
      -1000000000.0 < points[i].x < 1000000000.0 && -1000000000.0 < points[i].y < 1000000000.0
    ensures GrowAll(Sentinel, points) == Extent(points)
  {
    if |points| > 1 {
      GrowAllFromSentinel(points[..|points| - 1]);
    } else {
      assert points[..0] == [];
    }
  }
}
