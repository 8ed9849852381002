/**
 * What the rasterizer promises, stated over the specification functions of `Render`: the
 * modifier minimums of `drawAperture`, obround drawn as rectangle, the disk and box each aperture
 * clears, rotation normalisation and the quarter-turn swap, the centres `drawLine` stamps, and
 * the effect of each command type on the pen and the image.
 */
module RenderProperties {
  import opened Optional
  import opened GoStrings
  import opened GerberTypes
  import opened GerberParse
  import opened PenBounds
  import opened Raster
  import opened Render

  // ------------------------------------------------------------ apertures

  /** An obround is drawn exactly as the rectangle with the same modifiers (gerber.go:371-380). */
  lemma ObroundIsRect(x: int, y: int, m: seq<real>, scale: real, macros: map<string, Macro>)
    ensures ApertureShapes(x, y, Aperture(ObroundType, m), scale, macros)
         == ApertureShapes(x, y, Aperture(RectType, m), scale, macros)
  {
    assert ObroundType != CircleType && RectType != CircleType;
  }

  /**
   * Too few modifiers stamp nothing: a circle needs one, a rectangle or obround two, a macro
   * circle four and a center line six; any other primitive code draws nothing.
   */
  lemma TooFewModifiers(x: int, y: int, m: seq<real>, p: MacroPrimitive, scale: real, macros: map<string, Macro>)
    ensures |m| == 0 ==> ApertureShapes(x, y, Aperture(CircleType, m), scale, macros) == []
    ensures |m| < 2 ==> ApertureShapes(x, y, Aperture(RectType, m), scale, macros) == []
    ensures |m| < 2 ==> ApertureShapes(x, y, Aperture(ObroundType, m), scale, macros) == []
    ensures p.code == 1 && |p.modifiers| < 4 ==> PrimitiveShapes(x, y, p, scale) == []
    ensures p.code == 21 && |p.modifiers| < 6 ==> PrimitiveShapes(x, y, p, scale) == []
    ensures p.code != 1 && p.code != 21 ==> PrimitiveShapes(x, y, p, scale) == []
  {
    assert RectType != CircleType && ObroundType != CircleType;
  }

  /** A type that is neither C, R, O nor a defined macro stamps nothing (gerber.go:383-384). */
  lemma UnknownTypeStampsNothing(x: int, y: int, ap: Aperture, scale: real, macros: map<string, Macro>)
    requires ap.kind != CircleType && ap.kind != RectType && ap.kind != ObroundType && ap.kind !in macros
    ensures ApertureShapes(x, y, ap, scale, macros) == []
  {
  }

  /**
   * A circle aperture clears exactly the pixels within its radius of the centre, the radius being
   * half the truncated diameter in pixels (gerber.go:356-362, 438-447).
   */
  lemma CircleApertureClears(x: int, y: int, m: seq<real>, scale: real, macros: map<string, Macro>, i: int, j: int)
    requires |m| > 0
    ensures var r := Half(Px(m[0], scale));
      Stamped(ApertureShapes(x, y, Aperture(CircleType, m), scale, macros), i, j)
      <==> 0 <= r && (i - x) * (i - x) + (j - y) * (j - y) <= r * r
  {
    RadiusIsHalfDiameter(m[0], scale);
    StampedOne(Disk(x, y, Radius(m[0], scale)));
    DiskIsRound(x, y, Radius(m[0], scale), i, j);
  }

  function AbsInt(n: int): int
  {
    if n < 0 then -n else n
  }

  /**
   * A rectangle aperture clears the box reaching half its truncated width left and right of the
   * centre (the right edge excluded) and likewise vertically; a negative size spans the same box
   * as its absolute value, since `image.Rect` puts the corners in order (gerber.go:363-370).
   */
  lemma RectApertureClears(x: int, y: int, m: seq<real>, scale: real, macros: map<string, Macro>, i: int, j: int)
    requires |m| >= 2
    ensures var hw, hh := AbsInt(Half(Px(m[0], scale))), AbsInt(Half(Px(m[1], scale)));
      Stamped(ApertureShapes(x, y, Aperture(RectType, m), scale, macros), i, j)
      <==> x - hw <= i < x + hw && y - hh <= j < y + hh
  {
    assert RectType != CircleType;
    var s := CentredRect(x, y, Px(m[0], scale), Px(m[1], scale));
    assert ApertureShapes(x, y, Aperture(RectType, m), scale, macros) == [s];
    StampedOne(s);
  }

  // ------------------------------------------------------------ rotation

  /** Normalisation is the remainder of floored division: `math.Mod` then +360 below zero. */
  lemma NormalizeRotationIsMod(rot: real)
    ensures NormalizeRotation(rot) == rot - 360.0 * (rot / 360.0).Floor as real
  {
    var q := rot / 360.0;
    var f := q.Floor;
    if q < 0.0 && f as real != q {
      assert Trunc(q) == f + 1;
    }
  }

  /** Whole turns do not change the normalised rotation. */
  lemma NormalizeRotationPeriodic(rot: real)
    ensures NormalizeRotation(rot + 360.0) == NormalizeRotation(rot)
  {
    NormalizeRotationIsMod(rot);
    NormalizeRotationIsMod(rot + 360.0);
    FloorShift(rot / 360.0);
  }

  lemma FloorShift(q: real)
    ensures (q + 1.0).Floor == q.Floor + 1
  {
  }

  /** A half turn moves the normalised rotation by 180 degrees, staying in [0, 360). */
  lemma NormalizeHalfTurn(rot: real)
    ensures var n := NormalizeRotation(rot);
      NormalizeRotation(rot + 180.0) == if n < 180.0 then n + 180.0 else n - 180.0
  {
    NormalizeRotationIsMod(rot);
    NormalizeRotationIsMod(rot + 180.0);
    var f := (rot / 360.0).Floor;
    var n := rot - 360.0 * f as real;
    assert (rot + 180.0) / 360.0 == f as real + (n + 180.0) / 360.0;
    if n < 180.0 {
      assert ((rot + 180.0) / 360.0).Floor == f;
    } else {
      assert ((rot + 180.0) / 360.0).Floor == f + 1;
    }
  }

  /** The width/height swap of a center line is the same for a rotation and its half-turn opposite. */
  lemma QuarterTurnHalfTurn(rot: real)
    ensures QuarterTurn(rot + 180.0) <==> QuarterTurn(rot)
  {
    NormalizeHalfTurn(rot);
  }

  /** Rotations near 90 and 270 swap; 0 and 180 do not (gerber.go:417-420). */
  lemma QuarterTurnExamples()
    ensures QuarterTurn(90.0) && QuarterTurn(270.0) && QuarterTurn(-90.0) && QuarterTurn(450.5)
    ensures !QuarterTurn(0.0) && !QuarterTurn(180.0) && !QuarterTurn(91.0) && !QuarterTurn(360.0)
  {
    NormalizeRotationIsMod(-90.0);
    NormalizeRotationIsMod(450.5);
    NormalizeRotationIsMod(360.0);
  }

  // ------------------------------------------------------------ lines

  /** `Steps` is the truncated length of the segment. */
  lemma StepsIsLength(x1: int, y1: int, x2: int, y2: int)
    ensures var s, d2 := Steps(x1, y1, x2, y2), (x2 - x1) * (x2 - x1) + (y2 - y1) * (y2 - y1);
      s * s <= d2 < (s + 1) * (s + 1)
  {
    ISqrtIsRoot(Square(x2 - x1) + Square(y2 - y1));
  }

  /** A segment has no full step exactly when its two ends are the same pixel. */
  lemma StepsZero(x1: int, y1: int, x2: int, y2: int)
    ensures Steps(x1, y1, x2, y2) == 0 <==> x1 == x2 && y1 == y2
  {
    ISqrtZero(Square(x2 - x1) + Square(y2 - y1));
    SquaresZero(x2 - x1, y2 - y1);
  }

  /** The integer square root is 0 exactly at 0. */
  lemma ISqrtZero(n: nat)
    ensures ISqrt(n) == 0 <==> n == 0
  {
    ISqrtIsRoot(n);
  }

  /** A sum of two squares is 0 exactly when both numbers are. */
  lemma SquaresZero(a: int, b: int)
    ensures Square(a) + Square(b) == 0 <==> a == 0 && b == 0
  {
    if a != 0 {
      SquarePositive(a);
    }
    if b != 0 {
      SquarePositive(b);
    }
  }

  lemma SquarePositive(a: int)
    requires a != 0
    ensures Square(a) >= 1
  {
    var b := if a < 0 then -a else a;
    MulMonotone(b, 1, b);
    assert b * b == a * a;
  }

  /** A segment has one centre more than it has steps. */
  lemma LineCount(x1: int, y1: int, x2: int, y2: int)
    ensures |LineCentres(x1, y1, x2, y2)| == Steps(x1, y1, x2, y2) + 1
  {
    var steps := Steps(x1, y1, x2, y2);
    if steps > 0 {
      CentresAt(x1, y1, x2, y2, steps, steps + 1);
    }
  }

  /** Interpolation starts at the start and ends at the end. */
  lemma LerpEnds(a: int, d: int, steps: nat)
    requires steps > 0
    ensures Lerp(a, d, 0, steps) == a && Lerp(a, d, steps, steps) == a + d
  {
    assert (steps as real / steps as real) == 1.0;
  }

  /** The first centre is the start of the segment and the last is its end. */
  lemma LineEnds(x1: int, y1: int, x2: int, y2: int)
    ensures var c := LineCentres(x1, y1, x2, y2);
      |c| > 0 && c[0] == (x1, y1) && c[|c| - 1] == (x2, y2)
  {
    var steps := Steps(x1, y1, x2, y2);
    StepsZero(x1, y1, x2, y2);
    if steps > 0 {
      CentresAt(x1, y1, x2, y2, steps, steps + 1);
      LerpEnds(x1, x2 - x1, steps);
      LerpEnds(y1, y2 - y1, steps);
    }
  }

  /** Truncation keeps an integer plus an offset towards `d` between the integer and the integer plus `d`. */
  lemma TruncOffset(a: int, d: int, p: real)
    requires 0 <= d ==> 0.0 <= p <= d as real
    requires d < 0 ==> d as real <= p <= 0.0
    ensures 0 <= d ==> a <= Trunc(a as real + p) <= a + d
    ensures d < 0 ==> a + d <= Trunc(a as real + p) <= a
  {
  }

  /** A fraction `i / steps` with `0 <= i <= steps` lies in [0, 1]. */
  lemma FractionBetween(i: int, steps: nat)
    requires steps > 0 && 0 <= i <= steps
    ensures 0.0 <= i as real / steps as real <= 1.0
  {
  }

  /** A fraction `p` of `d` lies between 0 and `d`. */
  lemma PartBetween(t: real, d: int, p: real)
    requires 0.0 <= t <= 1.0 && p == t * d as real
    ensures 0 <= d ==> 0.0 <= p <= d as real
    ensures d < 0 ==> d as real <= p <= 0.0
  {
    if 0 <= d {
      assert (1.0 - t) * d as real >= 0.0;
    } else {
      assert (1.0 - t) * (-d) as real >= 0.0;
    }
  }

  /** Every interpolated coordinate lies between the two ends. */
  lemma LerpBetween(a: int, d: int, i: int, steps: nat)
    requires steps > 0 && 0 <= i <= steps
    ensures var v := Lerp(a, d, i, steps);
      (0 <= d ==> a <= v <= a + d) && (d < 0 ==> a + d <= v <= a)
  {
    FractionBetween(i, steps);
    StepBetween(a, d, i as real / steps as real);
  }

  /** A point a fraction `t` of the way from `a` to `a + d`, truncated, stays between the two. */
  lemma StepBetween(a: int, d: int, t: real)
    requires 0.0 <= t <= 1.0
    ensures var v := Trunc(a as real + t * d as real);
      (0 <= d ==> a <= v <= a + d) && (d < 0 ==> a + d <= v <= a)
  {
    var p := t * d as real;
    PartBetween(t, d, p);
    TruncOffset(a, d, p);
  }

  function Min(a: int, b: int): int { if a <= b then a else b }
  function Max(a: int, b: int): int { if a <= b then b else a }

  /** Every centre `drawLine` stamps lies in the bounding box of the segment. */
  lemma LineInBox(x1: int, y1: int, x2: int, y2: int)
    ensures var c := LineCentres(x1, y1, x2, y2);
      forall k :: 0 <= k < |c| ==>
        Min(x1, x2) <= c[k].0 <= Max(x1, x2) && Min(y1, y2) <= c[k].1 <= Max(y1, y2)
  {
    var steps := Steps(x1, y1, x2, y2);
    var c := LineCentres(x1, y1, x2, y2);
    if steps > 0 {
      CentresAt(x1, y1, x2, y2, steps, steps + 1);
      forall k | 0 <= k < |c|
        ensures Min(x1, x2) <= c[k].0 <= Max(x1, x2) && Min(y1, y2) <= c[k].1 <= Max(y1, y2)
      {
        LerpBetween(x1, x2 - x1, k, steps);
        LerpBetween(y1, y2 - y1, k, steps);
      }
    }
  }

  // ------------------------------------------------------------ commands

  /** An APERTURE command only changes the selected code and stamps nothing (gerber.go:320-323). */
  lemma SelectOnlyChangesCode(pen: Pen, cmd: Command, state: GerberState, scale: real, b: Bounds)
    requires cmd.kind == SelectAperture
    ensures Step(pen, cmd).at == pen.at
    ensures cmd.d.Some? ==> Step(pen, cmd).code == cmd.d.value
    ensures CommandShapes(pen, cmd, state, scale, b) == []
  {
  }

  /** A MOVE moves the pen, keeps the code and stamps nothing. */
  lemma MoveStampsNothing(pen: Pen, cmd: Command, state: GerberState, scale: real, b: Bounds)
    requires cmd.kind == Move
    ensures Step(pen, cmd) == Pen(MoveTo(pen.at, cmd), pen.code)
    ensures CommandShapes(pen, cmd, state, scale, b) == []
  {
  }

  /** Nothing is stamped while the selected code has no aperture (gerber.go:332-345). */
  lemma UndefinedCodeStampsNothing(pen: Pen, cmd: Command, state: GerberState, scale: real, b: Bounds)
    requires pen.code !in state.apertures
    ensures CommandShapes(pen, cmd, state, scale, b) == []
  {
  }

  /** A DRAW that names no coordinate stamps the aperture once, where the pen stands. */
  lemma DrawInPlace(pen: Pen, cmd: Command, state: GerberState, scale: real, b: Bounds)
    requires cmd.kind == Draw && cmd.x.None? && cmd.y.None? && pen.code in state.apertures
    ensures var p := ToPix(b, scale, pen.at);
      CommandShapes(pen, cmd, state, scale, b) == ApertureShapes(p.0, p.1, state.apertures[pen.code], scale, state.macros)
  {
    var p := ToPix(b, scale, pen.at);
    assert MoveTo(pen.at, cmd) == pen.at;
    StepsZero(p.0, p.1, p.0, p.1);
    LineShapesOne(p, state.apertures[pen.code], scale, state.macros);
  }

  /** The rasterizer's pen follows the same positions as the bounds computation. */
  lemma {:induction false} RenderPenAt(cmds: seq<Command>)
    requires SelectsWellFormed(cmds)
    ensures RenderPen(cmds).at == PenAfter(cmds)
  {
    if cmds != [] {
      var init := cmds[..|cmds| - 1];
      assert SelectsWellFormed(init) by {
        forall k | 0 <= k < |init| && init[k].kind == SelectAperture
          ensures init[k].d.Some? && init[k].d.value >= 10 && init[k].x.None? && init[k].y.None?
        {
          assert init[k] == cmds[k];
        }
      }
      RenderPenAt(init);
    }
  }

  /** Without a FLASH or a DRAW the image stays black everywhere. */
  lemma {:induction false} OnlyFlashAndDrawStamp(cmds: seq<Command>, state: GerberState, scale: real, b: Bounds)
    requires forall k :: 0 <= k < |cmds| ==> cmds[k].kind != Flash && cmds[k].kind != Draw
    ensures RenderShapes(cmds, state, scale, b) == []
  {
    if cmds != [] {
      var init := cmds[..|cmds| - 1];
      forall k | 0 <= k < |init|
        ensures init[k].kind != Flash && init[k].kind != Draw
      {
        assert init[k] == cmds[k];
      }
      OnlyFlashAndDrawStamp(init, state, scale, b);
    }
  }
}
