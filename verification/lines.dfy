/** drawLine: an integer Bresenham walk from the floored first vertex to the ceiled
    second one, colouring every pixel it visits with a blend of the two vertex colours.

    The walk is given as pure functions (Start, Step, Walk), so that the lemmas below
    can state what the loop of DrawLine does: it stops after exactly totDist + 1
    pixels, at the end point, never leaves the end points' bounding box, moves one
    pixel along the major axis per step, and never visits a pixel twice. */
module LineDrawing {
  import opened Colors
  import opened Pixels

  function Abs(n: int): nat {
    if n < 0 then -n else n
  }

  /** The integer end points of a line and the quantities drawLine derives from them. */
  datatype Line = Line(x0: int, y0: int, x1: int, y1: int) {
    function Dx(): nat { Abs(x1 - x0) }
    function Dy(): nat { Abs(y1 - y0) }
    function Sx(): int { if x0 < x1 then 1 else -1 }
    function Sy(): int { if y0 < y1 then 1 else -1 }

    /** totDist: the longer of the two spans. */
    function Major(): nat { if Dx() > Dy() then Dx() else Dy() }
  }

  /** The first vertex is floored and the second ceiled: the start pixel is the lattice
      point at or below-left of the first vertex, the end pixel the one at or above-right
      of the second. */
  function LineOf(p0: Vertex, p1: Vertex): (l: Line)
    ensures l.x0 as real <= p0.x < l.x0 as real + 1.0 && l.y0 as real <= p0.y < l.y0 as real + 1.0
    ensures p1.x <= l.x1 as real < p1.x + 1.0 && p1.y <= l.y1 as real < p1.y + 1.0
  {
    Line(p0.x.Floor, p0.y.Floor, Ceil(p1.x), Ceil(p1.y))
  }

  /** The loop variables of the walk: the current pixel and the error term. */
  datatype Cursor = Cursor(x: int, y: int, err: int)

  /** The loop variables before the first pass: the floored first vertex, err = dx - dy.
      The exit test holds there exactly for a line of zero length. */
  function Start(l: Line): (c: Cursor)
    ensures AtEnd(l, c) <==> l.Major() == 0
  {
    Cursor(l.x0, l.y0, l.Dx() - l.Dy())
  }

  /** One pass through the loop after the pixel is written and the end test fails. */
  function Step(l: Line, c: Cursor): (n: Cursor)
    ensures n.x == c.x || n.x == c.x + l.Sx()
    ensures n.y == c.y || n.y == c.y + l.Sy()
  {
    var dx: int, dy: int := l.Dx(), l.Dy();
    var e2 := 2 * c.err;
    var c1 := if e2 > -dy then Cursor(c.x + l.Sx(), c.y, c.err - dy) else c;
    if e2 < dx then Cursor(c1.x, c1.y + l.Sy(), c1.err + dx) else c1
  }

  /** The loop variables after `k` steps. */
  function Walk(l: Line, k: nat): Cursor {
    if k == 0 then Start(l) else Step(l, Walk(l, k - 1))
  }

  predicate AtEnd(l: Line, c: Cursor) {
    c.x == l.x1 && c.y == l.y1
  }

  /** Pixels travelled from the start towards the end, along x and along y. */
  function Along(l: Line, c: Cursor): int {
    if l.Sx() == 1 then c.x - l.x0 else l.x0 - c.x
  }

  function Across(l: Line, c: Cursor): int {
    if l.Sy() == 1 then c.y - l.y0 else l.y0 - c.y
  }

  /** The invariant of the walk after `k` steps: the progress (a, b) stays within the
      spans, the error term is (b+1)*dx - (a+1)*dy, the major axis has advanced by
      exactly `k`, and the deviation b*dx - a*dy from the ideal line stays within half
      a pixel of the major span. */
  ghost predicate Shaped(l: Line, c: Cursor, k: nat) {
    var a, b, dx, dy := Along(l, c), Across(l, c), l.Dx() as int, l.Dy() as int;
    && 0 <= a <= dx && 0 <= b <= dy
    && c.err == (b + 1) * dx - (a + 1) * dy
    && (dx >= dy ==> a == k && -dx <= 2 * (b * dx - a * dy) < dx && (dx == dy ==> b == a))
    && (dy > dx ==> b == k && -dy < 2 * (b * dx - a * dy) <= dy)
  }

  /** With a <= dx, a deviation below half the span keeps b within dy. */
  lemma MinorBound(dx: int, dy: nat, a: int, b: int)
    requires dx > 0 && a <= dx && 2 * (b * dx - a * dy) < dx
    ensures b <= dy
  {
    if b > dy {
      MulStep(dy + 1, b, dx);
      MulStep(a, dx, dy);
    }
  }

  /** The only multiple of n within half of n of zero is zero. */
  lemma ZeroInBand(n: int, m: int)
    requires n > 0 && -n <= 2 * (n * m) < n
    ensures m == 0
  {
    if m >= 1 {
      MulStep(1, m, n);
    } else if m <= -1 {
      MulStep(m, -1, n);
    }
  }

  /** Moving the progress from (a, b) by (0 or 1, 0 or 1) moves the deviation
      b*dx - a*dy linearly; the error term is the deviation plus dx - dy. */
  lemma Shift(a: int, b: int, a': int, b': int, dx: int, dy: int, mx: bool, my: bool)
    requires a' == (if mx then a + 1 else a) && b' == (if my then b + 1 else b)
    ensures b' * dx - a' * dy == b * dx - a * dy - (if mx then dy else 0) + (if my then dx else 0)
    ensures (b + 1) * dx - (a + 1) * dy == b * dx - a * dy + dx - dy
    ensures (b' + 1) * dx - (a' + 1) * dy == b' * dx - a' * dy + dx - dy
  {
  }

  lemma {:induction false} StepKeepsShape(l: Line, c: Cursor, k: nat)
    requires Shaped(l, c, k) && k < l.Major()
    ensures Shaped(l, Step(l, c), k + 1)
  {
    var a, b, dx, dy := Along(l, c), Across(l, c), l.Dx() as int, l.Dy() as int;
    var n := Step(l, c);
    var e2 := 2 * c.err;
    var mx, my := e2 > -dy, e2 < dx;
    var a', b' := Along(l, n), Across(l, n);
    assert a' == if mx then a + 1 else a;
    assert b' == if my then b + 1 else b;
    Shift(a, b, a', b', dx, dy, mx, my);
    var d, d' := b * dx - a * dy, b' * dx - a' * dy;
    assert e2 == 2 * d + 2 * dx - 2 * dy;
    assert n.err == d' + dx - dy;
    if dx >= dy {
      assert mx;
      if my {
        MinorBound(dx, dy, a', b');
      }
    } else {
      assert my;
      if mx {
        MinorBound(dy, dx, b', a');
      }
    }
  }

  /** The walk keeps its invariant for as many steps as the major span. */
  lemma {:induction false} WalkShape(l: Line, k: nat)
    requires l.Major() > 0 && k <= l.Major()
    ensures Shaped(l, Walk(l, k), k)
  {
    if k > 0 {
      WalkShape(l, k - 1);
      StepKeepsShape(l, Walk(l, k - 1), k - 1);
    }
  }

  /** The loop's exit test first succeeds after exactly totDist steps: so drawLine
      terminates, having written totDist + 1 pixels, the last one the end point. */
  lemma WalkEnds(l: Line, k: nat)
    requires l.Major() > 0 && k <= l.Major()
    ensures AtEnd(l, Walk(l, k)) <==> k == l.Major()
  {
    WalkShape(l, k);
    var c := Walk(l, k);
    var a, b := Along(l, c), Across(l, c);
    assert c.x == l.x1 <==> a == l.Dx();
    assert c.y == l.y1 <==> b == l.Dy();
    if k == l.Major() {
      if l.Dx() >= l.Dy() {
        BandEnd(l.Dx(), l.Dy(), a, b);
      } else {
        BandEnd(l.Dy(), l.Dx(), b, a);
      }
    }
  }

  /** Once the major progress reaches its span, the minor progress has reached its own. */
  lemma BandEnd(major: int, minor: int, a: int, b: int)
    requires major > 0 && a == major && -major <= 2 * (b * major - a * minor) < major
    ensures b == minor
  {
    assert b * major - a * minor == major * (b - minor);
    ZeroInBand(major, b - minor);
  }

  /** Each step moves one pixel along the major axis, and by 0 or one pixel towards
      the end point along the other. */
  lemma WalkMoves(l: Line, k: nat)
    requires l.Major() > 0 && k < l.Major()
    ensures var c, n := Walk(l, k), Walk(l, k + 1);
      && (n.x == c.x || n.x == c.x + l.Sx())
      && (n.y == c.y || n.y == c.y + l.Sy())
      && (l.Dx() >= l.Dy() ==> n.x == c.x + l.Sx())
      && (l.Dy() > l.Dx() ==> n.y == c.y + l.Sy())
  {
    WalkShape(l, k);
    WalkShape(l, k + 1);
  }

  function Min(p: int, q: int): int { if p <= q then p else q }
  function Max(p: int, q: int): int { if p <= q then q else p }

  /** Every pixel of the walk lies in the bounding box of the two end points. */
  lemma WalkInBox(l: Line, k: nat)
    requires l.Major() > 0 && k <= l.Major()
    ensures Min(l.x0, l.x1) <= Walk(l, k).x <= Max(l.x0, l.x1)
    ensures Min(l.y0, l.y1) <= Walk(l, k).y <= Max(l.y0, l.y1)
  {
    WalkShape(l, k);
  }

  /** No pixel is visited twice: the major coordinate changes at every step. */
  lemma WalkDistinct(l: Line, j: nat, k: nat)
    requires l.Major() > 0 && j < k <= l.Major()
    ensures Walk(l, j).x != Walk(l, k).x || Walk(l, j).y != Walk(l, k).y
  {
    WalkShape(l, j);
    WalkShape(l, k);
  }

  /** ic0: one minus the remaining distance along the major axis over totDist
      (the axis test is dx > dy, so equal spans measure along y). */
  function Weight(l: Line, c: Cursor): (ic0: real)
    requires l.Major() > 0
    ensures ic0 <= 1.0
    ensures AtEnd(l, c) ==> ic0 == 1.0
  {
    1.0 - (Abs(if l.Dx() > l.Dy() then l.x1 - c.x else l.y1 - c.y) as real) / (l.Major() as real)
  }

  /** At step k the first vertex's weight is k / totDist: 0 at the first pixel and 1 at
      the last, so it lies in [0, 1] and grows along the line. */
  lemma WeightAt(l: Line, k: nat)
    requires l.Major() > 0 && k <= l.Major()
    ensures Weight(l, Walk(l, k)) == (k as real) / (l.Major() as real)
    ensures 0.0 <= Weight(l, Walk(l, k)) <= 1.0
  {
    RemainingAt(l, k);
    Fraction(l.Major() as real, k as real);
  }

  /** After k steps the distance left along the measured axis is totDist - k. */
  lemma RemainingAt(l: Line, k: nat)
    requires l.Major() > 0 && k <= l.Major()
    ensures Abs(if l.Dx() > l.Dy() then l.x1 - Walk(l, k).x else l.y1 - Walk(l, k).y) == l.Major() - k
  {
    WalkShape(l, k);
  }

  lemma Fraction(m: real, k: real)
    requires 0.0 <= k <= m && 0.0 < m
    ensures 1.0 - (m - k) / m == k / m
    ensures 0.0 <= k / m <= 1.0
  {
    var p, q := (m - k) / m, k / m;
    assert p * m == m - k && q * m == k;
    assert (1.0 - p - q) * m == 0.0;
    ZeroProduct(1.0 - p - q, m);
  }

  lemma ZeroProduct(x: real, m: real)
    requires m > 0.0 && x * m == 0.0
    ensures x == 0.0
  {
    if x > 0.0 {
      PositiveProduct(x, m);
    } else if x < 0.0 {
      PositiveProduct(-x, m);
    }
  }

  lemma PositiveProduct(x: real, m: real)
    requires x > 0.0 && m > 0.0
    ensures x * m > 0.0
  {
  }

  /** The colour drawLine writes for weight ic0 of the first vertex and ic1 = 1 - ic0
      of the second. */
  function Blend(ic0: real, c0: Color, c1: Color): Color {
    var ic1 := 1.0 - ic0;
    Color(ic0 * c0.r + ic1 * c1.r, ic0 * c0.g + ic1 * c1.g, ic0 * c0.b + ic1 * c1.b, ic0 * c0.a + ic1 * c1.a)
  }

  /** A blend of clamped colours with a weight in [0, 1] is a clamped colour. */
  lemma BlendClamped(ic0: real, c0: Color, c1: Color)
    requires 0.0 <= ic0 <= 1.0 && c0.Clamped() && c1.Clamped()
    ensures Blend(ic0, c0, c1).Clamped()
  {
    Convex(ic0, c0.r, c1.r);
    Convex(ic0, c0.g, c1.g);
    Convex(ic0, c0.b, c1.b);
    Convex(ic0, c0.a, c1.a);
  }

  lemma Convex(t: real, u: real, v: real)
    requires 0.0 <= t <= 1.0 && 0.0 <= u <= 1.0 && 0.0 <= v <= 1.0
    ensures 0.0 <= t * u + (1.0 - t) * v <= 1.0
  {
    assert 0.0 <= t * u <= t;
    assert 0.0 <= (1.0 - t) * v <= 1.0 - t;
  }

  /** Both end points lie on the frame. */
  predicate Fits(l: Line, w: nat, h: nat) {
    InFrame(w, h, l.x0, l.y0) && InFrame(w, h, l.x1, l.y1)
  }

  /** What drawLine demands of its end points: both on the frame, and not the same
      pixel (then totDist is 0 and ic0 is 0/0). */
  predicate Drawable(p0: Vertex, p1: Vertex, w: nat, h: nat) {
    Fits(LineOf(p0, p1), w, h) && LineOf(p0, p1).Major() > 0
  }

  /** Every pixel of the walk of a fitting line lies on the frame. */
  lemma WalkInFrame(l: Line, k: nat, w: nat, h: nat)
    requires Fits(l, w, h) && l.Major() > 0 && k <= l.Major()
    ensures InFrame(w, h, Walk(l, k).x, Walk(l, k).y)
  {
    WalkInBox(l, k);
  }

  /** The buffer after the first `n` pixels of the walk are written. */
  function PaintWalk(buf: seq<real>, w: nat, h: nat, l: Line, c0: Color, c1: Color, n: nat): (r: seq<real>)
    requires |buf| == w * h * 4 && Fits(l, w, h) && l.Major() > 0 && n <= l.Major() + 1
    ensures |r| == |buf|
  {
    if n == 0 then buf
    else
      var c := Walk(l, n - 1);
      PutPixel(PaintWalk(buf, w, h, l, c0, c1, n - 1), w, h, c.x, c.y, Blend(Weight(l, c), c0, c1))
  }

  /** Blends of clamped colours keep the buffer's components in [0, 1]. */
  lemma {:induction false} PaintWalkUnit(buf: seq<real>, w: nat, h: nat, l: Line, c0: Color, c1: Color, n: nat)
    requires |buf| == w * h * 4 && Fits(l, w, h) && l.Major() > 0 && n <= l.Major() + 1
    requires UnitValues(buf) && c0.Clamped() && c1.Clamped()
    ensures UnitValues(PaintWalk(buf, w, h, l, c0, c1, n))
  {
    if n > 0 {
      var c := Walk(l, n - 1);
      WalkInFrame(l, n - 1, w, h);
      WeightAt(l, n - 1);
      BlendClamped(Weight(l, c), c0, c1);
      PaintWalkUnit(buf, w, h, l, c0, c1, n - 1);
      PutPixelUnit(PaintWalk(buf, w, h, l, c0, c1, n - 1), w, h, c.x, c.y, Blend(Weight(l, c), c0, c1));
    }
  }

  /** The buffer drawLine leaves: the whole walk written. */
  function LineImage(buf: seq<real>, w: nat, h: nat, p0: Vertex, p1: Vertex): (r: seq<real>)
    requires |buf| == w * h * 4 && Drawable(p0, p1, w, h)
  {
    var l := LineOf(p0, p1);
    PaintWalk(buf, w, h, l, p0.color, p1.color, l.Major() + 1)
  }

  /** Pixel (x, y) is among the first `n` pixels of the walk. */
  ghost predicate OnWalk(l: Line, n: nat, x: int, y: int) {
    exists k :: 0 <= k < n && Walk(l, k).x == x && Walk(l, k).y == y
  }

  lemma {:induction false} PaintWalkFrame(buf: seq<real>, w: nat, h: nat, l: Line, c0: Color, c1: Color, n: nat, i: nat)
    requires |buf| == w * h * 4 && Fits(l, w, h) && l.Major() > 0 && n <= l.Major() + 1
    requires i < |buf| && !OnWalk(l, n, PixelX(w, i), PixelY(w, i))
    ensures PaintWalk(buf, w, h, l, c0, c1, n)[i] == buf[i]
  {
    if n > 0 {
      var c := Walk(l, n - 1);
      assert !(c.x == PixelX(w, i) && c.y == PixelY(w, i));
      WalkInFrame(l, n - 1, w, h);
      PutPixelAt(PaintWalk(buf, w, h, l, c0, c1, n - 1), w, h, c.x, c.y, Blend(Weight(l, c), c0, c1), i);
      PaintWalkFrame(buf, w, h, l, c0, c1, n - 1, i);
    }
  }

  lemma {:induction false} PaintWalkAt(buf: seq<real>, w: nat, h: nat, l: Line, c0: Color, c1: Color, n: nat, k: nat, i: nat)
    requires |buf| == w * h * 4 && Fits(l, w, h) && l.Major() > 0 && n <= l.Major() + 1
    requires k < n && i < |buf| && PixelX(w, i) == Walk(l, k).x && PixelY(w, i) == Walk(l, k).y
    ensures PaintWalk(buf, w, h, l, c0, c1, n)[i] == Blend(Weight(l, Walk(l, k)), c0, c1).Channel(i % 4)
  {
    var c := Walk(l, n - 1);
    WalkInFrame(l, n - 1, w, h);
    PutPixelAt(PaintWalk(buf, w, h, l, c0, c1, n - 1), w, h, c.x, c.y, Blend(Weight(l, c), c0, c1), i);
    if k < n - 1 {
      WalkDistinct(l, k, n - 1);
      PaintWalkAt(buf, w, h, l, c0, c1, n - 1, k, i);
    }
  }

  /** drawLine with clamped end colours keeps the buffer's components in [0, 1]. */
  lemma LineUnit(buf: seq<real>, w: nat, h: nat, p0: Vertex, p1: Vertex)
    requires |buf| == w * h * 4 && Drawable(p0, p1, w, h)
    requires UnitValues(buf) && p0.color.Clamped() && p1.color.Clamped()
    ensures UnitValues(LineImage(buf, w, h, p0, p1))
  {
    var l := LineOf(p0, p1);
    PaintWalkUnit(buf, w, h, l, p0.color, p1.color, l.Major() + 1);
  }

  /** drawLine leaves every pixel off the walk as it was. */
  lemma LineFrame(buf: seq<real>, w: nat, h: nat, p0: Vertex, p1: Vertex, i: nat)
    requires |buf| == w * h * 4 && Drawable(p0, p1, w, h) && i < |buf|
    requires !OnWalk(LineOf(p0, p1), LineOf(p0, p1).Major() + 1, PixelX(w, i), PixelY(w, i))
    ensures LineImage(buf, w, h, p0, p1)[i] == buf[i]
  {
    var l := LineOf(p0, p1);
    PaintWalkFrame(buf, w, h, l, p0.color, p1.color, l.Major() + 1, i);
  }

  /** drawLine gives pixel k of the walk the blend with weight k / totDist for the first
      vertex's colour. */
  lemma LinePixel(buf: seq<real>, w: nat, h: nat, p0: Vertex, p1: Vertex, k: nat, i: nat)
    requires |buf| == w * h * 4 && Drawable(p0, p1, w, h) && i < |buf|
    requires k <= LineOf(p0, p1).Major()
    requires PixelX(w, i) == Walk(LineOf(p0, p1), k).x && PixelY(w, i) == Walk(LineOf(p0, p1), k).y
    ensures LineImage(buf, w, h, p0, p1)[i] ==
      Blend((k as real) / (LineOf(p0, p1).Major() as real), p0.color, p1.color).Channel(i % 4)
  {
    var l := LineOf(p0, p1);
    WeightAt(l, k);
    PaintWalkAt(buf, w, h, l, p0.color, p1.color, l.Major() + 1, k, i);
  }

  /** The colours come out reversed: the start pixel (the first vertex, floored) gets the
      second vertex's colour (see LineEndColor for the end pixel). */
  lemma LineStartColor(buf: seq<real>, w: nat, h: nat, p0: Vertex, p1: Vertex, i: nat)
    requires |buf| == w * h * 4 && Drawable(p0, p1, w, h) && i < |buf|
    requires PixelX(w, i) == p0.x.Floor && PixelY(w, i) == p0.y.Floor
    ensures LineImage(buf, w, h, p0, p1)[i] == p1.color.Channel(i % 4)
  {
    var l := LineOf(p0, p1);
    assert Walk(l, 0) == Start(l);
    LinePixel(buf, w, h, p0, p1, 0, i);
    assert (0 as real) / (l.Major() as real) == 0.0;
    BlendEnds(p0.color, p1.color);
  }

  /** The end pixel (the second vertex, ceiled) gets the first vertex's colour. */
  lemma LineEndColor(buf: seq<real>, w: nat, h: nat, p0: Vertex, p1: Vertex, i: nat)
    requires |buf| == w * h * 4 && Drawable(p0, p1, w, h) && i < |buf|
    requires PixelX(w, i) == Ceil(p1.x) && PixelY(w, i) == Ceil(p1.y)
    ensures LineImage(buf, w, h, p0, p1)[i] == p0.color.Channel(i % 4)
  {
    var l := LineOf(p0, p1);
    var m := l.Major();
    BlendEnds(p0.color, p1.color);
    WalkEnds(l, m);
    Fraction(m as real, m as real);
    LinePixel(buf, w, h, p0, p1, m, i);
  }

  lemma BlendEnds(c0: Color, c1: Color)
    ensures Blend(0.0, c0, c1) == c1 && Blend(1.0, c0, c1) == c0
  {
  }

  /** Step, one test at a time, as drawLine's loop performs it. */
  lemma StepCases(l: Line, c: Cursor)
    ensures var e2, dx, dy := 2 * c.err, l.Dx() as int, l.Dy() as int;
      Step(l, c) == Cursor(
        if e2 > -dy then c.x + l.Sx() else c.x,
        if e2 < dx then c.y + l.Sy() else c.y,
        c.err - (if e2 > -dy then dy else 0) + (if e2 < dx then dx else 0))
  {
  }

  /** The cursor after one pass of drawLine's loop is the walk's next cursor. */
  lemma Advance(l: Line, k: nat, c: Cursor, n: Cursor)
    requires Walk(l, k) == c
    requires var e2, dx, dy := 2 * c.err, l.Dx() as int, l.Dy() as int;
      && n.x == (if e2 > -dy then c.x + l.Sx() else c.x)
      && n.y == (if e2 < dx then c.y + l.Sy() else c.y)
      && n.err == c.err - (if e2 > -dy then dy else 0) + (if e2 < dx then dx else 0)
    ensures Walk(l, k + 1) == n
  {
    StepCases(l, c);
  }

  /** One pass of drawLine's loop writes the walk's next pixel, at (x, y), with the
      blend for ic0, the remaining distance along the measured axis over totDist. */
  method PaintPixel(data: array<real>, w: nat, h: nat, ghost buf: seq<real>, x0: int, y0: int, x1: int, y1: int,
                    dx: int, dy: int, totDist: int, c0: Color, c1: Color, ghost k: nat, x: int, y: int)
    requires dx == Abs(x1 - x0) && dy == Abs(y1 - y0) && totDist == (if dx > dy then dx else dy)
    requires data.Length == w * h * 4 && |buf| == w * h * 4
    requires Fits(Line(x0, y0, x1, y1), w, h) && totDist > 0 && k <= totDist
    requires Walk(Line(x0, y0, x1, y1), k).x == x && Walk(Line(x0, y0, x1, y1), k).y == y
    requires data[..] == PaintWalk(buf, w, h, Line(x0, y0, x1, y1), c0, c1, k)
    modifies data
    ensures data[..] == PaintWalk(buf, w, h, Line(x0, y0, x1, y1), c0, c1, k + 1)
  {
    ghost var l := Line(x0, y0, x1, y1);
    WalkInFrame(l, k, w, h);
    var ic0 := 1.0 - (Abs(if dx > dy then x1 - x else y1 - y) as real) / (totDist as real);
    assert ic0 == Weight(l, Walk(l, k));
    StorePixel(data, w, h, x, y, Blend(ic0, c0, c1));
  }

  /** drawLine: the end points are rounded (the first one down, the second one up) and
      the pixels of the walk between them are written. */
  method DrawLine(p0: Vertex, p1: Vertex, data: array<real>, w: nat, h: nat)
    requires data.Length == w * h * 4 && Drawable(p0, p1, w, h)
    modifies data
    ensures data[..] == LineImage(old(data[..]), w, h, p0, p1)
  {
    var x0 := p0.x.Floor;
    var y0 := p0.y.Floor;
    var x1 := Ceil(p1.x);
    var y1 := Ceil(p1.y);
    assert Line(x0, y0, x1, y1) == LineOf(p0, p1);
    Stroke(data, w, h, x0, y0, x1, y1, p0.color, p1.color);
  }

  /** drawLine's loop: the walk from (x0, y0) to (x1, y1), each pixel blended between
      the two end colours by its remaining distance. */
  method Stroke(data: array<real>, w: nat, h: nat, x0: int, y0: int, x1: int, y1: int, c0: Color, c1: Color)
    requires data.Length == w * h * 4
    requires Fits(Line(x0, y0, x1, y1), w, h) && Line(x0, y0, x1, y1).Major() > 0
    modifies data
    ensures var l := Line(x0, y0, x1, y1);
      data[..] == PaintWalk(old(data[..]), w, h, l, c0, c1, l.Major() + 1)
  {
    var dx: int := Abs(x1 - x0);
    var dy: int := Abs(y1 - y0);
    var sx := if x0 < x1 then 1 else -1;
    var sy := if y0 < y1 then 1 else -1;
    var err := dx - dy;

    var totDist := if dx > dy then dx else dy;

    ghost var l := Line(x0, y0, x1, y1);
    assert l.Dx() == dx && l.Dy() == dy && l.Sx() == sx && l.Sy() == sy && l.Major() == totDist;
    ghost var buf := data[..];
    ghost var k := 0;
    var x, y := x0, y0;
    while true
      invariant 0 <= k <= totDist
      invariant Walk(l, k) == Cursor(x, y, err)
      invariant data[..] == PaintWalk(buf, w, h, l, c0, c1, k)
      decreases totDist - k
    {
      PaintPixel(data, w, h, buf, x0, y0, x1, y1, dx, dy, totDist, c0, c1, k, x, y);

      WalkEnds(l, k);
      if x == x1 && y == y1 {
        break;
      }

      ghost var before := Cursor(x, y, err);
      var e2 := 2 * err;
      if e2 > -dy {
        err := err - dy;
        x := x + sx;
      }
      if e2 < dx {
        err := err + dx;
        y := y + sy;
      }
      Advance(l, k, before, Cursor(x, y, err));
      k := k + 1;
    }
  }
}
