/**
 * Screen geometry of the compositor: the orthographic projection from window
 * pixels to clip space, the rotated screen quad, and the window layout the
 * host window reports. Floats are modelled as reals.
 */
module Geometry {
  import GL

  /** A screen's destination rectangle in window pixels (left, top, width, height). */
  datatype ScreenRect = ScreenRect(left: nat, top: nat, width: nat, height: nat)

  /** The window's framebuffer layout: its size and where each screen goes. */
  datatype FramebufferLayout = FramebufferLayout(width: nat, height: nat, topScreen: ScreenRect, bottomScreen: ScreenRect)

  /** The image of pixel (px, py) under a 3x2 matrix stored column by column (last row 0 0 1). */
  function Transform(m: seq<real>, px: real, py: real): (real, real)
    requires |m| == 6
  {
    (m[0] * px + m[2] * py + m[4], m[1] * px + m[3] * py + m[5])
  }

  /**
   * The projection: pixel (0, 0), the top-left corner, goes to clip (-1, 1) and
   * pixel (width, height), the bottom-right corner, to clip (1, -1); x grows to
   * the right and y downwards.
   */
  function MakeOrthographicMatrix(width: real, height: real): (m: seq<real>)
    requires width > 0.0 && height > 0.0
    ensures |m| == 6
    ensures Transform(m, 0.0, 0.0) == (-1.0, 1.0)
    ensures Transform(m, width, height) == (1.0, -1.0)
    ensures m[1] == 0.0 && m[2] == 0.0
  {
    var sx, sy := 2.0 / width, -2.0 / height;
    var m := [sx, 0.0, 0.0, sy, -1.0, 1.0];
    assert m[0] * width == 2.0 && m[3] * height == -2.0;
    assert m[2] * height == 0.0 && m[1] * width == 0.0;
    assert Transform(m, width, height).0 == 1.0;
    assert Transform(m, width, height).1 == -1.0;
    m
  }

  lemma DivTimes(a: real, b: real, d: real)
    requires d != 0.0
    ensures (a / d) * b == a * b / d
  {
    var q := a / d;
    assert q * d == a;
    assert (q * b) * d == a * b;
  }

  /** Every pixel (px, py) lands at clip (2px/width - 1, 1 - 2py/height). */
  lemma OrthographicMapsPixels(width: real, height: real, px: real, py: real)
    requires width > 0.0 && height > 0.0
    ensures Transform(MakeOrthographicMatrix(width, height), px, py) == (2.0 * px / width - 1.0, 1.0 - 2.0 * py / height)
  {
    var m := MakeOrthographicMatrix(width, height);
    DivTimes(2.0, px, width);
    DivTimes(-2.0, py, height);
    assert m[0] * px == 2.0 * px / width;
    assert m[3] * py == -2.0 * py / height;
    assert -2.0 * py / height == -(2.0 * py / height);
    assert m[2] * py == 0.0 && m[1] * px == 0.0;
    assert Transform(m, px, py).0 == 2.0 * px / width - 1.0;
    assert Transform(m, px, py).1 == 1.0 - 2.0 * py / height;
  }

  /** The pixel a clip-space point comes from, for a window of the given size. */
  function PixelOfClip(width: real, height: real, cx: real, cy: real): (real, real)
    requires width > 0.0 && height > 0.0
  {
    ((cx + 1.0) * width / 2.0, (1.0 - cy) * height / 2.0)
  }

  /** The projection is a bijection between the window and clip space: PixelOfClip undoes it and back. */
  lemma OrthographicRoundTrip(width: real, height: real, px: real, py: real, cx: real, cy: real)
    requires width > 0.0 && height > 0.0
    ensures var c := Transform(MakeOrthographicMatrix(width, height), px, py);
            PixelOfClip(width, height, c.0, c.1) == (px, py)
    ensures var p := PixelOfClip(width, height, cx, cy);
            Transform(MakeOrthographicMatrix(width, height), p.0, p.1) == (cx, cy)
  {
    var m := MakeOrthographicMatrix(width, height);
    OrthographicMapsPixels(width, height, px, py);
    var c := Transform(m, px, py);
    assert c.0 == 2.0 * px / width - 1.0;
    assert (c.0 + 1.0) * width / 2.0 == px by { DivTimes(2.0 * px, width, width); }
    assert c.1 == 1.0 - 2.0 * py / height;
    assert (1.0 - c.1) * height / 2.0 == py by { DivTimes(2.0 * py, height, height); }
    assert PixelOfClip(width, height, c.0, c.1).0 == px;
    assert PixelOfClip(width, height, c.0, c.1).1 == py;
    var p := PixelOfClip(width, height, cx, cy);
    OrthographicMapsPixels(width, height, p.0, p.1);
    assert 2.0 * p.0 / width - 1.0 == cx;
    assert 1.0 - 2.0 * p.1 / height == cy;
    assert Transform(m, p.0, p.1).0 == cx;
    assert Transform(m, p.0, p.1).1 == cy;
  }

  /** A quarter turn of the unit square about its centre: (s, t) becomes (1 - t, s). */
  function QuarterTurn(s: real, t: real): (real, real) {
    (1.0 - t, s)
  }

  /** QuarterTurn is a rotation: it keeps the distance to the centre and returns after four turns. */
  lemma QuarterTurnIsRotation(s: real, t: real)
    ensures var q := QuarterTurn(s, t);
            (q.0 - 0.5) * (q.0 - 0.5) + (q.1 - 0.5) * (q.1 - 0.5) == (s - 0.5) * (s - 0.5) + (t - 0.5) * (t - 0.5)
    ensures var q1 := QuarterTurn(s, t);
            var q2 := QuarterTurn(q1.0, q1.1);
            var q3 := QuarterTurn(q2.0, q2.1);
            QuarterTurn(q3.0, q3.1) == (s, t)
    ensures QuarterTurn(s, t) != (s, t) || (s == 0.5 && t == 0.5)
  {
  }

  /**
   * The four vertices of a screen drawn as a triangle strip: the corners
   * top-left, top-right, bottom-left, bottom-right of the rectangle at (x, y)
   * of size w x h, each carrying the texture coordinate of its position turned
   * a quarter: u = 1 - (py - y)/h and v = (px - x)/w.
   */
  function RotatedQuad(x: real, y: real, w: real, h: real): (r: seq<GL.Vertex>)
    ensures |r| == 4
    ensures (r[0].x, r[0].y) == (x, y) && (r[1].x, r[1].y) == (x + w, y)
    ensures (r[2].x, r[2].y) == (x, y + h) && (r[3].x, r[3].y) == (x + w, y + h)
  {
    [GL.Vertex(x,     y,     1.0, 0.0),
     GL.Vertex(x + w, y,     1.0, 1.0),
     GL.Vertex(x,     y + h, 0.0, 0.0),
     GL.Vertex(x + w, y + h, 0.0, 1.0)]
  }

  /** Each vertex's texture coordinate is its position in the rectangle, turned a quarter. */
  lemma RotatedQuadTexCoords(x: real, y: real, w: real, h: real, i: nat)
    requires w != 0.0 && h != 0.0 && i < 4
    ensures var r := RotatedQuad(x, y, w, h);
            (r[i].u, r[i].v) == QuarterTurn((r[i].x - x) / w, (r[i].y - y) / h)
  {
    var r := RotatedQuad(x, y, w, h);
    assert (x + w - x) / w == 1.0;
    assert (y + h - y) / h == 1.0;
    assert (x - x) / w == 0.0;
    assert (y - y) / h == 0.0;
  }
}
