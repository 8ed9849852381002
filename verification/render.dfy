/**
 * The rasterizer: `Render` (gerber.go:280-352), `drawAperture` (gerber.go:354-436) and `drawLine`
 * (gerber.go:449-472). Each FLASH stamps the current aperture at the pen, each DRAW stamps it
 * along the segment from the previous pen position; a stamp is a list of `Shape`s and only ever
 * turns pixels white. The specification of a whole rendering is `RenderShapes`: the image is
 * black exactly where none of its shapes reaches.
 */
module Render {
  import opened Optional
  import opened GoStrings
  import opened GerberTypes
  import opened GerberParse
  import opened PenBounds
  import opened Raster

  // ------------------------------------------------------------ units and pixels

  /** Pixels per drawing unit: the dpi for inches, dpi / 25.4 for millimetres (gerber.go:291-296). */
  function ScaleOf(units: string, dpi: real): real
  {
    if units == "IN" then dpi else dpi / 25.4
  }

  /** Go's `int(v * scale)`: a length in drawing units as a whole number of pixels, truncated. */
  function Px(v: real, scale: real): int
  {
    Trunc(v * scale)
  }

  /** Go's `int((d * scale) / 2)`: the radius in pixels of a circle of diameter `d`. */
  function Radius(d: real, scale: real): int
  {
    Trunc(d * scale / 2.0)
  }

  /** Truncating the half of a real is halving its truncation. */
  lemma TruncHalf(t: real)
    ensures Trunc(t / 2.0) == Half(Trunc(t))
  {
    var n := Trunc(t);
    var h := Half(n);
    if t >= 0.0 {
      assert h as real <= t / 2.0 < h as real + 1.0;
    } else {
      assert h as real - 1.0 < t / 2.0 <= h as real;
    }
  }

  /** The radius is half the truncated diameter, halved as Go halves an int. */
  lemma RadiusIsHalfDiameter(d: real, scale: real)
    ensures Radius(d, scale) == Half(Px(d, scale))
  {
    TruncHalf(d * scale);
  }

  /** A pixel dimension: the truncated size, an empty grid when that is negative (gerber.go:298-302). */
  function Pixels(size: real, scale: real): nat
  {
    var n := Px(size, scale);
    if n < 0 then 0 else n
  }

  /** `toPix` (gerber.go:310-314): x from the left edge, y measured down from the top edge. */
  function ToPix(b: Bounds, scale: real, p: Point): (int, int)
  {
    (Px(p.x - b.minX, scale), Px((b.maxY - b.minY) - (p.y - b.minY), scale))
  }

  // ------------------------------------------------------------ apertures

  /** The box centred on (x, y), `w` by `h` pixels, with the half sizes truncated as Go's `w/2` does. */
  function CentredRect(x: int, y: int, w: int, h: int): Shape
  {
    Rect(x - Half(w), y - Half(h), x + Half(w), y + Half(h))
  }

  /** `math.Mod(x, m)`: the remainder of truncated division, with the sign of `x`. */
  function FMod(x: real, m: real): real
    requires m > 0.0
  {
    x - m * Trunc(x / m) as real
  }

  /** A rotation brought into [0, 360) (gerber.go:411-415). */
  function NormalizeRotation(rot: real): (r: real)
    ensures 0.0 <= r < 360.0
  {
    var m := FMod(rot, 360.0);
    if m < 0.0 then m + 360.0 else m
  }

  function Abs(r: real): real
  {
    if r < 0.0 then -r else r
  }

  /** A center-line rotation within 1 degree of 90 or 270 swaps width and height (gerber.go:417-420). */
  predicate QuarterTurn(rot: real)
  {
    var r := NormalizeRotation(rot);
    Abs(r - 90.0) < 1.0 || Abs(r - 270.0) < 1.0
  }

  /**
   * The shapes of one macro primitive placed at (x, y): a circle (code 1, with at least four
   * modifiers: exposure, diameter, centre x, centre y) or a center line (code 21, with at least
   * six: exposure, width, height, centre x, centre y, rotation). The centre offset is added on x
   * and subtracted on y, since image rows grow downwards (gerber.go:386-433).
   */
  function PrimitiveShapes(x: int, y: int, p: MacroPrimitive, scale: real): seq<Shape>
  {
    var m := p.modifiers;
    if p.code == 1 && |m| >= 4 then
      [Disk(x + Px(m[2], scale), y - Px(m[3], scale), Radius(m[1], scale))]
    else if p.code == 21 && |m| >= 6 then
      var turned := QuarterTurn(m[5]);
      var w := Px(if turned then m[2] else m[1], scale);
      var h := Px(if turned then m[1] else m[2], scale);
      [CentredRect(x + Px(m[3], scale), y - Px(m[4], scale), w, h)]
    else []
  }

  /** The shapes of a macro's primitives, in order. */
  function MacroShapes(x: int, y: int, prims: seq<MacroPrimitive>, scale: real): seq<Shape>
  {
    if prims == [] then []
    else MacroShapes(x, y, prims[..|prims| - 1], scale) + PrimitiveShapes(x, y, prims[|prims| - 1], scale)
  }

  /**
   * The shapes an aperture stamps at (x, y): a circle needs its diameter, a rectangle or obround
   * its width and height; any other type is looked up as a macro, and an unknown one stamps nothing.
   */
  function ApertureShapes(x: int, y: int, ap: Aperture, scale: real, macros: map<string, Macro>): seq<Shape>
  {
    var m := ap.modifiers;
    if ap.kind == CircleType then
      if |m| > 0 then [Disk(x, y, Radius(m[0], scale))] else []
    else if ap.kind == RectType || ap.kind == ObroundType then
      if |m| >= 2 then [CentredRect(x, y, Px(m[0], scale), Px(m[1], scale))] else []
    else if ap.kind in macros then MacroShapes(x, y, macros[ap.kind].primitives, scale)
    else []
  }

  /** `drawAperture`: stamps the aperture's shapes at (x, y) and nothing else. */
  method DrawAperture(img: array2<bool>, x: int, y: int, ap: Aperture, scale: real, macros: map<string, Macro>)
    modifies img
    ensures forall i, j :: 0 <= i < img.Length0 && 0 <= j < img.Length1 ==>
      img[i, j] == (old(img[i, j]) && !Stamped(ApertureShapes(x, y, ap, scale, macros), i, j))
  {
    var m := ap.modifiers;
    if ap.kind == CircleType {
      if |m| > 0 {
        var radius := Radius(m[0], scale);
        DrawCircle(img, x, y, radius);
        StampedOne(Disk(x, y, radius));
      }
      return;
    }
    if ap.kind == RectType || ap.kind == ObroundType {
      if |m| >= 2 {
        var w := Px(m[0], scale);
        var h := Px(m[1], scale);
        FillRect(img, CentredRect(x, y, w, h));
        StampedOne(CentredRect(x, y, w, h));
      }
      return;
    }
    if ap.kind in macros {
      var prims := macros[ap.kind].primitives;
      for k := 0 to |prims|
        invariant forall i, j :: 0 <= i < img.Length0 && 0 <= j < img.Length1 ==>
          img[i, j] == (old(img[i, j]) && !Stamped(MacroShapes(x, y, prims[..k], scale), i, j))
      {
        assert prims[..k + 1][..k] == prims[..k];
        StampedAppendAll(MacroShapes(x, y, prims[..k], scale), PrimitiveShapes(x, y, prims[k], scale));
        DrawPrimitive(img, x, y, prims[k], scale);
      }
      assert prims[..|prims|] == prims;
    }
  }

  /** One primitive of the macro loop (gerber.go:387-433). */
  method DrawPrimitive(img: array2<bool>, x: int, y: int, p: MacroPrimitive, scale: real)
    modifies img
    ensures forall i, j :: 0 <= i < img.Length0 && 0 <= j < img.Length1 ==>
      img[i, j] == (old(img[i, j]) && !Stamped(PrimitiveShapes(x, y, p, scale), i, j))
  {
    var m := p.modifiers;
    if p.code == 1 {
      if |m| >= 4 {
        var px := Px(m[2], scale);
        var py := Px(m[3], scale);
        var radius := Radius(m[1], scale);
        DrawCircle(img, x + px, y - py, radius);
        StampedOne(Disk(x + px, y - py, radius));
      }
    } else if p.code == 21 {
      if |m| >= 6 {
        var width, height := m[1], m[2];
        var rot := FMod(m[5], 360.0);
        if rot < 0.0 {
          rot := rot + 360.0;
        }
        assert rot == NormalizeRotation(m[5]);
        if Abs(rot - 90.0) < 1.0 || Abs(rot - 270.0) < 1.0 {
          width, height := height, width;
        }
        assert width == (if QuarterTurn(m[5]) then m[2] else m[1]);
        assert height == (if QuarterTurn(m[5]) then m[1] else m[2]);
        var w := Px(width, scale);
        var h := Px(height, scale);
        var rx := x + Px(m[3], scale);
        var ry := y - Px(m[4], scale);
        assert PrimitiveShapes(x, y, p, scale) == [CentredRect(rx, ry, w, h)];
        FillRect(img, CentredRect(rx, ry, w, h));
        StampedOne(CentredRect(rx, ry, w, h));
      }
    }
  }

  /** A one-shape list stamps exactly what the shape covers. */
  lemma StampedOne(s: Shape)
    ensures forall i, j :: Stamped([s], i, j) == Covers(s, i, j)
  {
    assert [s][..0] == [];
  }

  // ------------------------------------------------------------ lines

  /** The integer square root: the largest `s` with `s * s <= n` (`int(math.Sqrt(n))` on exact values). */
  function ISqrt(n: nat): nat
  {
    if n == 0 then 0
    else
      var t := ISqrt(n - 1);
      if (t + 1) * (t + 1) <= n then t + 1 else t
  }

  lemma {:induction false} ISqrtIsRoot(n: nat)
    ensures ISqrt(n) * ISqrt(n) <= n < (ISqrt(n) + 1) * (ISqrt(n) + 1)
  {
    if n > 0 {
      ISqrtIsRoot(n - 1);
    }
  }

  function Square(d: int): nat
  {
    SquareNonNegative(d);
    d * d
  }

  /** The number of one-pixel steps of a segment: its length, truncated (gerber.go:455-459). */
  function Steps(x1: int, y1: int, x2: int, y2: int): nat
  {
    ISqrt(Square(x2 - x1) + Square(y2 - y1))
  }

  /** Go's `int(float64(a) + t*d)` with `t = i / steps`: step `i` of `steps` from `a` towards `a + d`. */
  function Lerp(a: int, d: int, i: int, steps: nat): int
    requires steps > 0
  {
    Trunc(a as real + (i as real / steps as real) * d as real)
  }

  /** The first `n` of the `steps + 1` centres of a segment: centre `i` lies `i / steps` of the way along. */
  function Centres(x1: int, y1: int, x2: int, y2: int, steps: nat, n: nat): seq<(int, int)>
    requires steps > 0
  {
    if n == 0 then []
    else Centres(x1, y1, x2, y2, steps, n - 1) + [(Lerp(x1, x2 - x1, n - 1, steps), Lerp(y1, y2 - y1, n - 1, steps))]
  }

  /** Where `drawLine` stamps: once at the start for a segment under a pixel long, else at steps + 1 centres. */
  function LineCentres(x1: int, y1: int, x2: int, y2: int): seq<(int, int)>
  {
    var steps := Steps(x1, y1, x2, y2);
    if steps == 0 then [(x1, y1)] else Centres(x1, y1, x2, y2, steps, steps + 1)
  }

  /** `Centres` lists the first `n` centres, centre `i` at position `i`. */
  lemma {:induction false} CentresAt(x1: int, y1: int, x2: int, y2: int, steps: nat, n: nat)
    requires steps > 0
    ensures |Centres(x1, y1, x2, y2, steps, n)| == n
    ensures forall i :: 0 <= i < n ==>
      Centres(x1, y1, x2, y2, steps, n)[i] == (Lerp(x1, x2 - x1, i, steps), Lerp(y1, y2 - y1, i, steps))
  {
    if n > 0 {
      CentresAt(x1, y1, x2, y2, steps, n - 1);
    }
  }

  /** The aperture stamped at each centre, in order. */
  function LineShapes(centres: seq<(int, int)>, ap: Aperture, scale: real, macros: map<string, Macro>): seq<Shape>
  {
    if centres == [] then []
    else
      var c := centres[|centres| - 1];
      LineShapes(centres[..|centres| - 1], ap, scale, macros) + ApertureShapes(c.0, c.1, ap, scale, macros)
  }

  /** Stamping centre `k` extends what the first `k` centres stamped. */
  lemma LineStep(x1: int, y1: int, x2: int, y2: int, steps: nat, k: nat, ap: Aperture, scale: real, macros: map<string, Macro>)
    requires steps > 0
    ensures LineShapes(Centres(x1, y1, x2, y2, steps, k + 1), ap, scale, macros)
         == LineShapes(Centres(x1, y1, x2, y2, steps, k), ap, scale, macros)
            + ApertureShapes(Lerp(x1, x2 - x1, k, steps), Lerp(y1, y2 - y1, k, steps), ap, scale, macros)
  {
    var before := Centres(x1, y1, x2, y2, steps, k);
    var c := (Lerp(x1, x2 - x1, k, steps), Lerp(y1, y2 - y1, k, steps));
    assert (before + [c])[..|before + [c]| - 1] == before;
  }

  /**
   * One pixel through two stamping rounds: white after the second round iff it was white at the
   * start or either round's shapes reach it.
   */
  lemma ClearedAfter(start: bool, mid: bool, end: bool, first: seq<Shape>, second: seq<Shape>, i: int, j: int)
    requires mid == (start && !Stamped(first, i, j))
    requires end == (mid && !Stamped(second, i, j))
    ensures end == (start && !Stamped(first + second, i, j))
  {
    StampedAppend(first, second, i, j);
  }

  /** A single centre stamps the aperture there. */
  lemma LineShapesOne(c: (int, int), ap: Aperture, scale: real, macros: map<string, Macro>)
    ensures LineShapes([c], ap, scale, macros) == ApertureShapes(c.0, c.1, ap, scale, macros)
  {
    assert [c][..0] == [];
    assert [] + ApertureShapes(c.0, c.1, ap, scale, macros) == ApertureShapes(c.0, c.1, ap, scale, macros);
  }

  /** `drawLine`: stamps the aperture at every centre of the segment. */
  method DrawLine(img: array2<bool>, x1: int, y1: int, x2: int, y2: int, ap: Aperture, scale: real, macros: map<string, Macro>)
    modifies img
    ensures forall i, j :: 0 <= i < img.Length0 && 0 <= j < img.Length1 ==>
      img[i, j] == (old(img[i, j]) && !Stamped(LineShapes(LineCentres(x1, y1, x2, y2), ap, scale, macros), i, j))
  {
    var steps := Steps(x1, y1, x2, y2);
    if steps == 0 {
      LineShapesOne((x1, y1), ap, scale, macros);
      DrawAperture(img, x1, y1, ap, scale, macros);
      return;
    }
    DrawCentres(img, x1, y1, x2, y2, steps, ap, scale, macros);
  }

  /** The stepping loop of `drawLine` (gerber.go:466-471): the aperture at centres 0 to `steps`, in order. */
  method DrawCentres(img: array2<bool>, x1: int, y1: int, x2: int, y2: int, steps: nat, ap: Aperture, scale: real, macros: map<string, Macro>)
    requires steps > 0
    modifies img
    ensures forall i, j :: 0 <= i < img.Length0 && 0 <= j < img.Length1 ==>
      img[i, j] == (old(img[i, j]) && !Stamped(LineShapes(Centres(x1, y1, x2, y2, steps, steps + 1), ap, scale, macros), i, j))
  {
    var dx := x2 - x1;
    var dy := y2 - y1;
    ghost var done: seq<Shape> := [];
    for k := 0 to steps + 1
      invariant done == LineShapes(Centres(x1, y1, x2, y2, steps, k), ap, scale, macros)
      invariant forall i, j :: 0 <= i < img.Length0 && 0 <= j < img.Length1 ==>
        img[i, j] == (old(img[i, j]) && !Stamped(done, i, j))
    {
      var x := Lerp(x1, dx, k, steps);
      var y := Lerp(y1, dy, k, steps);
      ghost var stamp := ApertureShapes(x, y, ap, scale, macros);
      LineStep(x1, y1, x2, y2, steps, k, ap, scale, macros);
      label before:
      DrawAperture(img, x, y, ap, scale, macros);
      forall i, j | 0 <= i < img.Length0 && 0 <= j < img.Length1
        ensures img[i, j] == (old(img[i, j]) && !Stamped(done + stamp, i, j))
      {
        ClearedAfter(old(img[i, j]), old@before(img[i, j]), img[i, j], done, stamp, i, j);
      }
      done := done + stamp;
    }
  }

  // ------------------------------------------------------------ the command loop

  /** The rasterizer's state between commands: the pen position and the selected D code. */
  datatype Pen = Pen(at: Point, code: int)

  /** A select changes only the code; any other command moves the pen along the axes it names. */
  function Step(pen: Pen, cmd: Command): Pen
  {
    if cmd.kind == SelectAperture then Pen(pen.at, if cmd.d.Some? then cmd.d.value else pen.code)
    else Pen(MoveTo(pen.at, cmd), pen.code)
  }

  /** The state after a command list, from the origin with code 0 (gerber.go:316-317). */
  function RenderPen(cmds: seq<Command>): Pen
  {
    if cmds == [] then Pen(Point(0.0, 0.0), 0) else Step(RenderPen(cmds[..|cmds| - 1]), cmds[|cmds| - 1])
  }

  /**
   * What one command stamps, given the state before it: a FLASH stamps the selected aperture at
   * the new pen position, a DRAW strokes it from the old position to the new one; nothing is
   * stamped when the selected code has no aperture.
   */
  function CommandShapes(pen: Pen, cmd: Command, state: GerberState, scale: real, b: Bounds): seq<Shape>
  {
    if cmd.kind == SelectAperture || pen.code !in state.apertures then []
    else
      var ap := state.apertures[pen.code];
      var to := ToPix(b, scale, MoveTo(pen.at, cmd));
      if cmd.kind == Flash then ApertureShapes(to.0, to.1, ap, scale, state.macros)
      else if cmd.kind == Draw then
        var from := ToPix(b, scale, pen.at);
        LineShapes(LineCentres(from.0, from.1, to.0, to.1), ap, scale, state.macros)
      else []
  }

  /** Everything a command list stamps, in order. */
  function RenderShapes(cmds: seq<Command>, state: GerberState, scale: real, b: Bounds): seq<Shape>
  {
    if cmds == [] then []
    else
      var init := cmds[..|cmds| - 1];
      RenderShapes(init, state, scale, b) + CommandShapes(RenderPen(init), cmds[|cmds| - 1], state, scale, b)
  }

  /** One more command: the pen takes one step and the command's shapes follow the earlier ones. */
  lemma RenderSnoc(cmds: seq<Command>, k: int, state: GerberState, scale: real, b: Bounds)
    requires 0 <= k < |cmds|
    ensures RenderPen(cmds[..k + 1]) == Step(RenderPen(cmds[..k]), cmds[k])
    ensures forall x, y ::
      Stamped(RenderShapes(cmds[..k + 1], state, scale, b), x, y) <==>
      Stamped(RenderShapes(cmds[..k], state, scale, b), x, y) || Stamped(CommandShapes(RenderPen(cmds[..k]), cmds[k], state, scale, b), x, y)
  {
    assert cmds[..k + 1][..k] == cmds[..k];
    StampedAppendAll(RenderShapes(cmds[..k], state, scale, b), CommandShapes(RenderPen(cmds[..k]), cmds[k], state, scale, b));
  }

  /** The frame: the bounds given, or those of the commands. */
  function FrameOf(cmds: seq<Command>, bounds: Option<Bounds>): Bounds
  {
    if bounds.Some? then bounds.value else BoundsOf(cmds)
  }

  /** The body of the command loop for a FLASH or a DRAW (gerber.go:333-347). */
  method DrawCommand(img: array2<bool>, pen: Pen, cmd: Command, state: GerberState, scale: real, b: Bounds)
    modifies img
    ensures forall i, j :: 0 <= i < img.Length0 && 0 <= j < img.Length1 ==>
      img[i, j] == (old(img[i, j]) && !Stamped(CommandShapes(pen, cmd, state, scale, b), i, j))
  {
    if cmd.kind == SelectAperture {
      return;
    }
    var cur := MoveTo(pen.at, cmd);
    if cmd.kind == Flash {
      if pen.code in state.apertures {
        var c := ToPix(b, scale, cur);
        DrawAperture(img, c.0, c.1, state.apertures[pen.code], scale, state.macros);
      }
    } else if cmd.kind == Draw {
      if pen.code in state.apertures {
        var from := ToPix(b, scale, pen.at);
        var to := ToPix(b, scale, cur);
        DrawLine(img, from.0, from.1, to.0, to.1, state.apertures[pen.code], scale, state.macros);
      }
    }
  }

  /**
   * `Render`: a grid the size of the frame at the given resolution, black everywhere except
   * where some FLASH or DRAW stamps. The Go code dereferences the D code of every select, which
   * the parser always sets.
   */
  method Render(gf: GerberFile, dpi: real, bounds: Option<Bounds>) returns (img: array2<bool>)
    requires SelectsWellFormed(gf.commands)
    ensures fresh(img)
    ensures var b := FrameOf(gf.commands, bounds);
      var scale := ScaleOf(gf.state.units, dpi);
      && img.Length0 == Pixels(b.maxX - b.minX, scale)
      && img.Length1 == Pixels(b.maxY - b.minY, scale)
      && forall x, y :: 0 <= x < img.Length0 && 0 <= y < img.Length1 ==>
        img[x, y] == !Stamped(RenderShapes(gf.commands, gf.state, scale, b), x, y)
  {
    var b: Bounds;
    if bounds.Some? {
      b := bounds.value;
    } else {
      b := CalculateBounds(gf.commands);
    }
    var scale := if gf.state.units == "IN" then dpi else dpi / 25.4;
    var width := Px(b.maxX - b.minX, scale);
    var height := Px(b.maxY - b.minY, scale);
    if width < 0 {
      width := 0;
    }
    if height < 0 {
      height := 0;
    }
    img := new bool[width, height]((x, y) => true);
    var cmds := gf.commands;
    var curX, curY := 0.0, 0.0;
    var curDCode := 0;
    for k := 0 to |cmds|
      invariant Pen(Point(curX, curY), curDCode) == RenderPen(cmds[..k])
      invariant forall x, y :: 0 <= x < img.Length0 && 0 <= y < img.Length1 ==>
        img[x, y] == !Stamped(RenderShapes(cmds[..k], gf.state, scale, b), x, y)
    {
      var cmd := cmds[k];
      RenderSnoc(cmds, k, gf.state, scale, b);
      DrawCommand(img, Pen(Point(curX, curY), curDCode), cmd, gf.state, scale, b);
      if cmd.kind == SelectAperture {
        curDCode := cmd.d.value;
      } else {
        if cmd.x.Some? {
          curX := cmd.x.value;
        }
        if cmd.y.Some? {
          curY := cmd.y.value;
        }
      }
    }
    assert cmds[..|cmds|] == cmds;
  }
}
