/**
 * The pixel grid the rasterizer draws on and its two drawing primitives: `drawCircle`
 * (gerber.go:438-447) and the rectangle fill `draw.Draw(img, r, white, ..., draw.Src)` used by
 * `drawAperture`. The grid is `img[x, y]` with `true` for a black (solid stencil) pixel and
 * `false` for a white (hole) pixel; writes outside the grid are ignored, as `img.Set` and
 * `draw.Draw` ignore them.
 */
module Raster {

  /** A region the rasterizer clears: a closed disk, or a half-open box `[x0, x1) x [y0, y1)`. */
  datatype Shape = Disk(cx: int, cy: int, r: int) | Box(x0: int, y0: int, x1: int, y1: int)

  /** `image.Rect`: the box spanned by two corners, with the coordinates swapped into order. */
  function Rect(x0: int, y0: int, x1: int, y1: int): (b: Shape)
    ensures b.Box? && b.x0 <= b.x1 && b.y0 <= b.y1
    ensures {b.x0, b.x1} == {x0, x1} && {b.y0, b.y1} == {y0, y1}
  {
    Box(if x0 <= x1 then x0 else x1, if y0 <= y1 then y0 else y1,
        if x0 <= x1 then x1 else x0, if y0 <= y1 then y1 else y0)
  }

  /**
   * The pixels a shape clears. For a disk these are the offsets the two loops of `drawCircle`
   * visit, both in [-r, r], and keep, those with dx^2 + dy^2 <= r^2.
   */
  predicate Covers(s: Shape, x: int, y: int)
  {
    match s
    case Disk(cx, cy, r) =>
      -r <= x - cx <= r && -r <= y - cy <= r && (x - cx) * (x - cx) + (y - cy) * (y - cy) <= r * r
    case Box(x0, y0, x1, y1) => x0 <= x < x1 && y0 <= y < y1
  }

  /** Some shape of the list clears pixel (x, y). */
  predicate Stamped(shapes: seq<Shape>, x: int, y: int)
  {
    shapes != [] && (Stamped(shapes[..|shapes| - 1], x, y) || Covers(shapes[|shapes| - 1], x, y))
  }

  /** A pixel is cleared by a concatenation iff one of the two parts clears it. */
  lemma {:induction false} StampedAppend(a: seq<Shape>, b: seq<Shape>, x: int, y: int)
    ensures Stamped(a + b, x, y) <==> Stamped(a, x, y) || Stamped(b, x, y)
    decreases |b|
  {
    if b != [] {
      assert (a + b)[..|a + b| - 1] == a + b[..|b| - 1];
      StampedAppend(a, b[..|b| - 1], x, y);
    } else {
      assert a + b == a;
    }
  }

  /** `StampedAppend` for every pixel at once. */
  lemma StampedAppendAll(a: seq<Shape>, b: seq<Shape>)
    ensures forall x, y :: Stamped(a + b, x, y) <==> Stamped(a, x, y) || Stamped(b, x, y)
  {
    forall x, y
      ensures Stamped(a + b, x, y) <==> Stamped(a, x, y) || Stamped(b, x, y)
    {
      StampedAppend(a, b, x, y);
    }
  }

  /** A pixel is cleared by a list iff some shape in it covers the pixel. */
  lemma {:induction false} StampedExists(shapes: seq<Shape>, x: int, y: int)
    ensures Stamped(shapes, x, y) <==> exists i :: 0 <= i < |shapes| && Covers(shapes[i], x, y)
  {
    if shapes != [] {
      var init := shapes[..|shapes| - 1];
      StampedExists(init, x, y);
      if Stamped(init, x, y) {
        var i :| 0 <= i < |init| && Covers(init[i], x, y);
        assert shapes[i] == init[i];
      }
      if exists i :: 0 <= i < |shapes| && Covers(shapes[i], x, y) {
        var i :| 0 <= i < |shapes| && Covers(shapes[i], x, y);
        if i < |init| {
          assert init[i] == shapes[i];
        }
      }
    }
  }

  /** The square bound of the loops is implied: a disk covers exactly the pixels within distance r, for r >= 0. */
  lemma DiskIsRound(cx: int, cy: int, r: int, x: int, y: int)
    ensures Covers(Disk(cx, cy, r), x, y) <==> 0 <= r && (x - cx) * (x - cx) + (y - cy) * (y - cy) <= r * r
  {
    var dx, dy := x - cx, y - cy;
    SquareNonNegative(dx);
    SquareNonNegative(dy);
    if 0 <= r && dx * dx + dy * dy <= r * r {
      SquareBound(dx, r);
      SquareBound(dy, r);
    }
  }

  lemma SquareNonNegative(d: int)
    ensures d * d >= 0
  {
    if d < 0 {
      MulMonotone(-d, 0, -d);
      assert (-d) * (-d) == d * d;
    } else {
      MulMonotone(d, 0, d);
    }
  }

  /** A square no larger than r^2 has its root within [-r, r]. */
  lemma SquareBound(d: int, r: int)
    requires 0 <= r && d * d <= r * r
    ensures -r <= d <= r
  {
    assert (r + 1) * (r + 1) == r * r + 2 * r + 1;
    assert (-d) * (-d) == d * d;
    if d > r {
      MulMonotone(d, r + 1, d);
      MulMonotone(r + 1, r + 1, d);
    } else if d < -r {
      MulMonotone(-d, r + 1, -d);
      MulMonotone(r + 1, r + 1, -d);
    }
  }

  /** Multiplying by a non-negative factor keeps the order. */
  lemma {:induction false} MulMonotone(a: int, b: int, c: int)
    requires 0 <= a && b <= c
    ensures a * b <= a * c
  {
    if a > 0 {
      MulMonotone(a - 1, b, c);
      assert a * b == (a - 1) * b + b;
      assert a * c == (a - 1) * c + c;
    }
  }

  /**
   * `drawCircle`: for every offset (dx, dy) with both in [-r, r] and dx^2 + dy^2 <= r^2, pixel
   * (x0 + dx, y0 + dy) turns white; nothing else changes.
   */
  method DrawCircle(img: array2<bool>, x0: int, y0: int, r: int)
    modifies img
    ensures forall x, y :: 0 <= x < img.Length0 && 0 <= y < img.Length1 ==>
      img[x, y] == (old(img[x, y]) && !Covers(Disk(x0, y0, r), x, y))
  {
    var dy := -r;
    while dy <= r
      invariant dy == -r || -r <= dy <= r + 1
      invariant forall x, y :: 0 <= x < img.Length0 && 0 <= y < img.Length1 ==>
        img[x, y] == (old(img[x, y]) && !(y - y0 < dy && Covers(Disk(x0, y0, r), x, y)))
    {
      var dx := -r;
      while dx <= r
        invariant -r <= dx <= r + 1
        invariant forall x, y :: 0 <= x < img.Length0 && 0 <= y < img.Length1 ==>
          img[x, y] == (old(img[x, y]) && !((y - y0 < dy || (y - y0 == dy && x - x0 < dx)) && Covers(Disk(x0, y0, r), x, y)))
      {
        if dx * dx + dy * dy <= r * r {
          Set(img, x0 + dx, y0 + dy);
        }
        dx := dx + 1;
      }
      dy := dy + 1;
    }
  }

  /** `img.Set(x, y, white)`: clears the pixel when it lies in the grid, and does nothing otherwise. */
  method Set(img: array2<bool>, x: int, y: int)
    modifies img
    ensures forall i, j :: 0 <= i < img.Length0 && 0 <= j < img.Length1 ==>
      img[i, j] == (old(img[i, j]) && !(i == x && j == y))
  {
    if 0 <= x < img.Length0 && 0 <= y < img.Length1 {
      img[x, y] := false;
    }
  }

  /** `draw.Draw(img, r, white, image.Point{}, draw.Src)`: every pixel of the box, clipped to the grid, turns white. */
  method FillRect(img: array2<bool>, r: Shape)
    requires r.Box?
    modifies img
    ensures forall x, y :: 0 <= x < img.Length0 && 0 <= y < img.Length1 ==>
      img[x, y] == (old(img[x, y]) && !Covers(r, x, y))
  {
    forall x, y | 0 <= x < img.Length0 && 0 <= y < img.Length1 && Covers(r, x, y) {
      img[x, y] := false;
    }
  }
}
