/** drawTriangle: scan the integer bounding box of the three floored vertices and, at
    every pixel whose three barycentric weights all lie in [0, 1], write the weights
    themselves as the colour (red, green, blue) with alpha 1.

    The lemmas show that the weights are the barycentric coordinates of the pixel
    (they sum to 1 and reproduce its position, and no other weights do), so the
    pixels drawn are exactly the lattice points of the closed triangle; the box test
    never rejects one of them. */
module TriangleDrawing {
  import opened Colors
  import opened Pixels

  function Min3(p: int, q: int, r: int): int {
    if p <= q && p <= r then p else if q <= r then q else r
  }

  function Max3(p: int, q: int, r: int): int {
    if p >= q && p >= r then p else if q >= r then q else r
  }

  /** The three floored vertex positions. */
  datatype Tri = Tri(x1: int, y1: int, x2: int, y2: int, x3: int, y3: int) {
    function MinX(): int { Min3(x1, x2, x3) }
    function MaxX(): int { Max3(x1, x2, x3) }
    function MinY(): int { Min3(y1, y2, y3) }
    function MaxY(): int { Max3(y1, y2, y3) }

    /** The number whose reciprocal is `factor`: twice the signed area. */
    function Det(): int { (y2 - y3) * (x1 - x3) + (x3 - x2) * (y1 - y3) }

    /** The numerators of the first two weights at pixel (x, y). */
    function N0(x: int, y: int): int { (y2 - y3) * (x - x3) + (x3 - x2) * (y - y3) }
    function N1(x: int, y: int): int { (y3 - y1) * (x - x3) + (x1 - x3) * (y - y3) }
  }

  function TriOf(p0: Vertex, p1: Vertex, p2: Vertex): Tri {
    Tri(p0.x.Floor, p0.y.Floor, p1.x.Floor, p1.y.Floor, p2.x.Floor, p2.y.Floor)
  }

  /** What drawTriangle demands: the three floored vertices on the frame, and a non-zero
      area (otherwise `factor` is 1/0). */
  predicate Drawable(p0: Vertex, p1: Vertex, p2: Vertex, w: nat, h: nat) {
    var t := TriOf(p0, p1, p2);
    InFrame(w, h, t.x1, t.y1) && InFrame(w, h, t.x2, t.y2) && InFrame(w, h, t.x3, t.y3) && t.Det() != 0
  }

  datatype Weights = Weights(ic0: real, ic1: real, ic2: real)

  /** ic0, ic1 and ic2 at pixel (x, y). */
  function WeightsAt(t: Tri, x: int, y: int): (r: Weights)
    requires t.Det() != 0
    ensures r.ic0 + r.ic1 + r.ic2 == 1.0
  {
    var factor := 1.0 / (t.Det() as real);
    var ic0 := (t.N0(x, y) as real) * factor;
    var ic1 := (t.N1(x, y) as real) * factor;
    Weights(ic0, ic1, 1.0 - ic0 - ic1)
  }

  /** The three weights lie in [0, 1]: the tests that decide whether a pixel is drawn. */
  predicate Covered(t: Tri, x: int, y: int)
    requires t.Det() != 0
  {
    var r := WeightsAt(t, x, y);
    0.0 <= r.ic0 <= 1.0 && 0.0 <= r.ic1 <= 1.0 && 0.0 <= r.ic2 <= 1.0
  }

  predicate InBox(t: Tri, x: int, y: int) {
    t.MinX() <= x <= t.MaxX() && t.MinY() <= y <= t.MaxY()
  }

  /** The pixels the two loops write. */
  predicate Painted(t: Tri, x: int, y: int)
    requires t.Det() != 0
  {
    InBox(t, x, y) && Covered(t, x, y)
  }

  /** The colour written at a drawn pixel. */
  function Shade(t: Tri, x: int, y: int): Color
    requires t.Det() != 0
  {
    var r := WeightsAt(t, x, y);
    Color(r.ic0 * 1.0, r.ic1 * 1.0, r.ic2 * 1.0, 1.0)
  }

  /** The buffer drawTriangle leaves. */
  function TriangleImage(buf: seq<real>, w: nat, h: nat, t: Tri): (r: seq<real>)
    requires |buf| == w * h * 4 && w > 0 && t.Det() != 0
    ensures |r| == |buf|
  {
    seq(|buf|, i requires 0 <= i < |buf| =>
      if Painted(t, PixelX(w, i), PixelY(w, i)) then Shade(t, PixelX(w, i), PixelY(w, i)).Channel(i % 4)
      else buf[i])
  }

  /** The two polynomial identities behind the barycentric weights. */
  lemma Identities(t: Tri, x: int, y: int)
    ensures t.N0(x, y) * (t.x1 - t.x3) + t.N1(x, y) * (t.x2 - t.x3) == t.Det() * (x - t.x3)
    ensures t.N0(x, y) * (t.y1 - t.y3) + t.N1(x, y) * (t.y2 - t.y3) == t.Det() * (y - t.y3)
  {
  }

  /** The weights at (x, y) are its barycentric coordinates: they sum to 1 and the
      weighted sum of the vertices is (x, y). */
  lemma Barycentric(t: Tri, x: int, y: int)
    requires t.Det() != 0
    ensures var r := WeightsAt(t, x, y);
      && r.ic0 + r.ic1 + r.ic2 == 1.0
      && r.ic0 * (t.x1 as real) + r.ic1 * (t.x2 as real) + r.ic2 * (t.x3 as real) == x as real
      && r.ic0 * (t.y1 as real) + r.ic1 * (t.y2 as real) + r.ic2 * (t.y3 as real) == y as real
  {
    Identities(t, x, y);
    var d := t.Det() as real;
    var factor := 1.0 / d;
    assert d * factor == 1.0;
    var n0, n1 := t.N0(x, y) as real, t.N1(x, y) as real;
    Recombine(n0, n1, factor, d, (t.x1 - t.x3) as real, (t.x2 - t.x3) as real, (x - t.x3) as real);
    Recombine(n0, n1, factor, d, (t.y1 - t.y3) as real, (t.y2 - t.y3) as real, (y - t.y3) as real);
  }

  /** If n0*a + n1*c == d*v and d*f == 1, then (n0*f)*a + (n1*f)*c == v. */
  lemma Recombine(n0: real, n1: real, f: real, d: real, a: real, c: real, v: real)
    requires n0 * a + n1 * c == d * v && d * f == 1.0
    ensures (n0 * f) * a + (n1 * f) * c == v
  {
    calc {
      (n0 * f) * a + (n1 * f) * c;
      (n0 * a + n1 * c) * f;
      (d * v) * f;
      (d * f) * v;
      v;
    }
  }

  /** Convex weights for (x, y), expressed through the first two. */
  predicate Inside(t: Tri, x: int, y: int, l0: real, l1: real, l2: real) {
    && 0.0 <= l0 && 0.0 <= l1 && 0.0 <= l2 && l0 + l1 + l2 == 1.0
    && l0 * (t.x1 as real) + l1 * (t.x2 as real) + l2 * (t.x3 as real) == x as real
    && l0 * (t.y1 as real) + l1 * (t.y2 as real) + l2 * (t.y3 as real) == y as real
  }

  /** Barycentric coordinates are unique when the area is not zero. */
  lemma Unique(t: Tri, x: int, y: int, l0: real, l1: real, l2: real)
    requires t.Det() != 0 && l0 + l1 + l2 == 1.0
    requires l0 * (t.x1 as real) + l1 * (t.x2 as real) + l2 * (t.x3 as real) == x as real
    requires l0 * (t.y1 as real) + l1 * (t.y2 as real) + l2 * (t.y3 as real) == y as real
    ensures WeightsAt(t, x, y) == Weights(l0, l1, l2)
  {
    Barycentric(t, x, y);
    var r := WeightsAt(t, x, y);
    var a, c := (t.x1 - t.x3) as real, (t.x2 - t.x3) as real;
    var b, e := (t.y1 - t.y3) as real, (t.y2 - t.y3) as real;
    var u, v := r.ic0 - l0, r.ic1 - l1;
    assert u * a + v * c == 0.0;
    assert u * b + v * e == 0.0;
    var d := t.Det() as real;
    assert d == e * a - c * b;
    assert u * d == e * (u * a + v * c) - c * (u * b + v * e);
    assert v * d == a * (u * b + v * e) - b * (u * a + v * c);
    NonZeroFactor(u, d);
    NonZeroFactor(v, d);
  }

  lemma NonZeroFactor(u: real, d: real)
    requires d != 0.0 && u * d == 0.0
    ensures u == 0.0
  {
  }

  /** A pixel is drawn-eligible exactly when it lies in the closed triangle: covered
      pixels have convex weights that reproduce them, and any convex weights that
      reproduce a pixel make it covered. */
  lemma CoveredIffInside(t: Tri, x: int, y: int, l0: real, l1: real, l2: real)
    requires t.Det() != 0
    ensures Covered(t, x, y) ==>
      Inside(t, x, y, WeightsAt(t, x, y).ic0, WeightsAt(t, x, y).ic1, WeightsAt(t, x, y).ic2)
    ensures Inside(t, x, y, l0, l1, l2) ==> Covered(t, x, y)
  {
    Barycentric(t, x, y);
    if Inside(t, x, y, l0, l1, l2) {
      Unique(t, x, y, l0, l1, l2);
    }
  }

  /** A convex combination of three values lies between their minimum and maximum. */
  lemma ConvexBetween(l0: real, l1: real, l2: real, v1: int, v2: int, v3: int)
    requires 0.0 <= l0 && 0.0 <= l1 && 0.0 <= l2 && l0 + l1 + l2 == 1.0
    ensures Min3(v1, v2, v3) as real <= l0 * (v1 as real) + l1 * (v2 as real) + l2 * (v3 as real)
    ensures l0 * (v1 as real) + l1 * (v2 as real) + l2 * (v3 as real) <= Max3(v1, v2, v3) as real
  {
    var lo, hi := Min3(v1, v2, v3) as real, Max3(v1, v2, v3) as real;
    var s := l0 * (v1 as real) + l1 * (v2 as real) + l2 * (v3 as real);
    NonNegProduct(l0, v1 as real - lo);
    NonNegProduct(l1, v2 as real - lo);
    NonNegProduct(l2, v3 as real - lo);
    NonNegProduct(l0, hi - v1 as real);
    NonNegProduct(l1, hi - v2 as real);
    NonNegProduct(l2, hi - v3 as real);
    assert s - lo == l0 * (v1 as real - lo) + l1 * (v2 as real - lo) + l2 * (v3 as real - lo);
    assert hi - s == l0 * (hi - v1 as real) + l1 * (hi - v2 as real) + l2 * (hi - v3 as real);
  }

  lemma NonNegProduct(p: real, q: real)
    requires 0.0 <= p && 0.0 <= q
    ensures 0.0 <= p * q
  {
  }

  /** The bounding-box test never rejects a covered pixel. */
  lemma CoveredInBox(t: Tri, x: int, y: int)
    requires t.Det() != 0 && Covered(t, x, y)
    ensures InBox(t, x, y)
  {
    Barycentric(t, x, y);
    var r := WeightsAt(t, x, y);
    Between(r.ic0, r.ic1, r.ic2, t.x1, t.x2, t.x3, x);
    Between(r.ic0, r.ic1, r.ic2, t.y1, t.y2, t.y3, y);
  }

  lemma Between(l0: real, l1: real, l2: real, v1: int, v2: int, v3: int, v: int)
    requires 0.0 <= l0 && 0.0 <= l1 && 0.0 <= l2 && l0 + l1 + l2 == 1.0
    requires l0 * (v1 as real) + l1 * (v2 as real) + l2 * (v3 as real) == v as real
    ensures Min3(v1, v2, v3) <= v <= Max3(v1, v2, v3)
  {
    ConvexBetween(l0, l1, l2, v1, v2, v3);
  }

  /** Each vertex pixel is drawn in the pure colour of its own weight: the first red,
      the second green, the third blue. */
  lemma VertexShades(t: Tri)
    requires t.Det() != 0
    ensures Painted(t, t.x1, t.y1) && Shade(t, t.x1, t.y1) == Color(1.0, 0.0, 0.0, 1.0)
    ensures Painted(t, t.x2, t.y2) && Shade(t, t.x2, t.y2) == Color(0.0, 1.0, 0.0, 1.0)
    ensures Painted(t, t.x3, t.y3) && Shade(t, t.x3, t.y3) == Color(0.0, 0.0, 1.0, 1.0)
  {
    Unique(t, t.x1, t.y1, 1.0, 0.0, 0.0);
    Unique(t, t.x2, t.y2, 0.0, 1.0, 0.0);
    Unique(t, t.x3, t.y3, 0.0, 0.0, 1.0);
  }

  /** What drawTriangle leaves: every lattice point of the closed triangle holds its
      barycentric weights as red, green and blue (summing to 1) with alpha 1, and every
      other pixel is untouched. */
  lemma TriangleImageAt(buf: seq<real>, w: nat, h: nat, t: Tri, i: nat)
    requires |buf| == w * h * 4 && w > 0 && t.Det() != 0 && i < |buf|
    ensures var x, y := PixelX(w, i), PixelY(w, i);
      TriangleImage(buf, w, h, t)[i] == if Covered(t, x, y) then Shade(t, x, y).Channel(i % 4) else buf[i]
    ensures var x, y := PixelX(w, i), PixelY(w, i);
      Covered(t, x, y) ==> Shade(t, x, y).Clamped() && Shade(t, x, y).r + Shade(t, x, y).g + Shade(t, x, y).b == 1.0
  {
    var x, y := PixelX(w, i), PixelY(w, i);
    if Covered(t, x, y) {
      CoveredInBox(t, x, y);
    }
  }

  /** drawTriangle keeps the buffer's components in [0, 1]. */
  lemma TriangleUnit(buf: seq<real>, w: nat, h: nat, t: Tri)
    requires |buf| == w * h * 4 && w > 0 && t.Det() != 0 && UnitValues(buf)
    ensures UnitValues(TriangleImage(buf, w, h, t))
  {
    var r := TriangleImage(buf, w, h, t);
    forall i | 0 <= i < |r| ensures 0.0 <= r[i] <= 1.0 {
      TriangleImageAt(buf, w, h, t, i);
      var x, y := PixelX(w, i), PixelY(w, i);
      if Covered(t, x, y) {
        ChannelUnit(Shade(t, x, y), i % 4);
      }
    }
  }

  /** Pixel (px, py) comes before pixel (x, y) in the scan: columns left to right, each
      column top to bottom. */
  predicate Before(px: int, py: int, x: int, y: int) {
    px < x || (px == x && py < y)
  }

  /** The buffer once the scan has reached pixel (x, y). */
  function Partial(buf: seq<real>, w: nat, h: nat, t: Tri, x: int, y: int): (r: seq<real>)
    requires |buf| == w * h * 4 && w > 0 && t.Det() != 0
    ensures |r| == |buf|
  {
    seq(|buf|, i requires 0 <= i < |buf| =>
      if Before(PixelX(w, i), PixelY(w, i), x, y) && Painted(t, PixelX(w, i), PixelY(w, i))
      then Shade(t, PixelX(w, i), PixelY(w, i)).Channel(i % 4)
      else buf[i])
  }

  /** Nothing is painted before the first pixel of the box. */
  lemma PartialStart(buf: seq<real>, w: nat, h: nat, t: Tri)
    requires |buf| == w * h * 4 && w > 0 && t.Det() != 0
    ensures Partial(buf, w, h, t, t.MinX(), t.MinY()) == buf
  {
    var r := Partial(buf, w, h, t, t.MinX(), t.MinY());
    forall i | 0 <= i < |buf| ensures r[i] == buf[i] {
    }
  }

  /** One scan step: pixel (x, y) is painted with its shade when the weights cover it. */
  lemma PartialNext(buf: seq<real>, w: nat, h: nat, t: Tri, x: int, y: int)
    requires |buf| == w * h * 4 && w > 0 && t.Det() != 0 && InFrame(w, h, x, y)
    ensures Partial(buf, w, h, t, x, y + 1) ==
      if Painted(t, x, y) then PutPixel(Partial(buf, w, h, t, x, y), w, h, x, y, Shade(t, x, y))
      else Partial(buf, w, h, t, x, y)
  {
    var p, q := Partial(buf, w, h, t, x, y), Partial(buf, w, h, t, x, y + 1);
    var r := if Painted(t, x, y) then PutPixel(p, w, h, x, y, Shade(t, x, y)) else p;
    forall i | 0 <= i < |buf| ensures q[i] == r[i] {
      var px, py := PixelX(w, i), PixelY(w, i);
      if Painted(t, x, y) {
        PutPixelAt(p, w, h, x, y, Shade(t, x, y), i);
      }
      if px == x && py == y {
        assert q[i] == if Painted(t, x, y) then Shade(t, x, y).Channel(i % 4) else buf[i];
        assert p[i] == buf[i];
      } else {
        assert Before(px, py, x, y + 1) == Before(px, py, x, y);
        assert q[i] == p[i];
      }
    }
  }

  /** Leaving a column below the box is entering the next one above it. */
  lemma PartialColumn(buf: seq<real>, w: nat, h: nat, t: Tri, x: int)
    requires |buf| == w * h * 4 && w > 0 && t.Det() != 0
    ensures Partial(buf, w, h, t, x, t.MaxY() + 1) == Partial(buf, w, h, t, x + 1, t.MinY())
  {
    var p, q := Partial(buf, w, h, t, x, t.MaxY() + 1), Partial(buf, w, h, t, x + 1, t.MinY());
    forall i | 0 <= i < |buf| ensures p[i] == q[i] {
    }
  }

  /** Past the last column of the box the scan has painted the whole image. */
  lemma PartialEnd(buf: seq<real>, w: nat, h: nat, t: Tri)
    requires |buf| == w * h * 4 && w > 0 && t.Det() != 0
    ensures Partial(buf, w, h, t, t.MaxX() + 1, t.MinY()) == TriangleImage(buf, w, h, t)
  {
    var p, q := Partial(buf, w, h, t, t.MaxX() + 1, t.MinY()), TriangleImage(buf, w, h, t);
    forall i | 0 <= i < |buf| ensures p[i] == q[i] {
    }
  }

  /** The box of a drawable triangle lies on the frame. */
  lemma BoxInFrame(t: Tri, w: nat, h: nat, x: int, y: int)
    requires InFrame(w, h, t.x1, t.y1) && InFrame(w, h, t.x2, t.y2) && InFrame(w, h, t.x3, t.y3)
    requires InBox(t, x, y)
    ensures InFrame(w, h, x, y)
  {
  }

  /** The weights as drawTriangle computes them from the vertex coordinates and `factor`,
      the reciprocal of the determinant. */
  lemma ScanWeights(x1: int, y1: int, x2: int, y2: int, x3: int, y3: int, x: int, y: int, factor: real)
    requires Tri(x1, y1, x2, y2, x3, y3).Det() != 0
    requires factor == 1.0 / (((y2 - y3) * (x1 - x3) + (x3 - x2) * (y1 - y3)) as real)
    ensures var ic0 := (((y2 - y3) * (x - x3) + (x3 - x2) * (y - y3)) as real) * factor;
      var ic1 := (((y3 - y1) * (x - x3) + (x1 - x3) * (y - y3)) as real) * factor;
      WeightsAt(Tri(x1, y1, x2, y2, x3, y3), x, y) == Weights(ic0, ic1, 1.0 - ic0 - ic1)
  {
  }

  /** drawTriangle. */
  method DrawTriangle(p0: Vertex, p1: Vertex, p2: Vertex, data: array<real>, w: nat, h: nat)
    requires data.Length == w * h * 4 && Drawable(p0, p1, p2, w, h)
    modifies data
    ensures data[..] == TriangleImage(old(data[..]), w, h, TriOf(p0, p1, p2))
  {
    var x1 := p0.x.Floor;
    var x2 := p1.x.Floor;
    var x3 := p2.x.Floor;
    var y1 := p0.y.Floor;
    var y2 := p1.y.Floor;
    var y3 := p2.y.Floor;

    var minX := Min3(x1, x2, x3);
    var minY := Min3(y1, y2, y3);
    var maxX := Max3(x1, x2, x3);
    var maxY := Max3(y1, y2, y3);

    var factor := 1.0 / (((y2 - y3) * (x1 - x3) + (x3 - x2) * (y1 - y3)) as real);

    ghost var t := TriOf(p0, p1, p2);
    ghost var buf := data[..];
    assert t == Tri(x1, y1, x2, y2, x3, y3);
    assert factor == 1.0 / (t.Det() as real);
    PartialStart(buf, w, h, t);
    for x := minX to maxX + 1
      invariant data[..] == Partial(buf, w, h, t, x, minY)
    {
      for y := minY to maxY + 1
        invariant data[..] == Partial(buf, w, h, t, x, y)
      {
        BoxInFrame(t, w, h, x, y);
        PartialNext(buf, w, h, t, x, y);
        ghost var weights := WeightsAt(t, x, y);
        ScanWeights(x1, y1, x2, y2, x3, y3, x, y, factor);
        var ic0 := (((y2 - y3) * (x - x3) + (x3 - x2) * (y - y3)) as real) * factor;
        if ic0 < 0.0 || ic0 > 1.0 {
          assert !Painted(t, x, y);
          continue;
        }
        var ic1 := (((y3 - y1) * (x - x3) + (x1 - x3) * (y - y3)) as real) * factor;
        if ic1 < 0.0 || ic1 > 1.0 {
          assert !Painted(t, x, y);
          continue;
        }
        var ic2 := 1.0 - ic0 - ic1;
        if ic2 < 0.0 || ic2 > 1.0 {
          assert !Painted(t, x, y);
          continue;
        }

        assert weights == Weights(ic0, ic1, ic2) && Painted(t, x, y);
        StorePixel(data, w, h, x, y, Color(ic0 * 1.0, ic1 * 1.0, ic2 * 1.0, 1.0));
      }
      PartialColumn(buf, w, h, t, x);
    }
    PartialEnd(buf, w, h, t);
  }
}
