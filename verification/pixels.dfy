/** The colour buffer's layout (four reals per pixel, row after row) and the single-pixel
    write that drawPoint performs and drawLine and drawTriangle repeat inline. */
module Pixels {
  import opened Colors

  /** A submitted vertex: position and the colour latched when it was submitted
      (the source's `[x, y, z, color]`). */
  datatype Vertex = Vertex(x: real, y: real, z: real, color: Color)

  /** Math.ceil. */
  function Ceil(v: real): (n: int)
    ensures v <= n as real < v + 1.0
  {
    -((-v).Floor)
  }

  /** The index of the red component of pixel (x, y) in a buffer `w` pixels wide. */
  function Offset(w: nat, x: int, y: int): int {
    (x + y * w) * 4
  }

  /** Pixel (x, y) lies on a `w` by `h` frame. */
  predicate InFrame(w: nat, h: nat, x: int, y: int) {
    0 <= x < w && 0 <= y < h
  }

  /** The column of the pixel that buffer index `i` belongs to. */
  function PixelX(w: nat, i: nat): nat
    requires w > 0
  {
    (i / 4) % w
  }

  /** The row of the pixel that buffer index `i` belongs to. */
  function PixelY(w: nat, i: nat): nat
    requires w > 0
  {
    (i / 4) / w
  }

  /** Euclidean division has one quotient and one remainder. */
  lemma {:induction false} DivModUnique(n: int, d: int, q: int, r: int)
    requires 0 <= r < d && n == q * d + r
    ensures n / d == q && n % d == r
  {
    var q', r' := n / d, n % d;
    assert n == q' * d + r';
    if q' < q {
      MulStep(q' + 1, q, d);
    } else if q < q' {
      MulStep(q + 1, q', d);
    }
  }

  /** Multiplying by a non-negative number keeps order. */
  lemma MulStep(p: int, q: int, d: int)
    requires p <= q && 0 <= d
    ensures p * d <= q * d
  {
    assert q * d - p * d == (q - p) * d;
  }

  /** The four components of a pixel on the frame lie inside the buffer. */
  lemma PixelBounds(w: nat, h: nat, x: int, y: int)
    requires InFrame(w, h, x, y)
    ensures 0 <= Offset(w, x, y) && Offset(w, x, y) + 4 <= w * h * 4
  {
    MulStep(y, h - 1, w);
    assert x + y * w < (h - 1) * w + w == h * w;
  }

  /** The four indices of pixel (x, y) are exactly the indices whose column is x and
      whose row is y; the index's remainder modulo 4 is its channel. */
  lemma {:induction false} PixelSlots(w: nat, h: nat, x: int, y: int)
    requires InFrame(w, h, x, y)
    ensures forall i: nat :: PixelX(w, i) == x && PixelY(w, i) == y <==> Offset(w, x, y) <= i < Offset(w, x, y) + 4
  {
    var q := x + y * w;
    forall i: nat
      ensures PixelX(w, i) == x && PixelY(w, i) == y <==> Offset(w, x, y) <= i < Offset(w, x, y) + 4
    {
      var j := i / 4;
      if Offset(w, x, y) <= i < Offset(w, x, y) + 4 {
        DivModUnique(i, 4, q, i - 4 * q);
        DivModUnique(j, w, y, x);
      }
      if PixelX(w, i) == x && PixelY(w, i) == y {
        assert j == (j / w) * w + j % w == y * w + x;
      }
    }
  }

  /** The buffer after the four components at pixel (x, y)'s offset are set to `c`.
      The offset is computed without checking x against the width, so a pixel off the
      frame whose offset is still inside the buffer lands on another row; an offset
      outside the buffer is not modelled and leaves it as it was. */
  function PutPixel(buf: seq<real>, w: nat, h: nat, x: int, y: int, c: Color): (r: seq<real>)
    requires |buf| == w * h * 4
    ensures |r| == |buf|
  {
    var o := Offset(w, x, y);
    if 0 <= o && o + 4 <= |buf| then buf[o := c.r][o + 1 := c.g][o + 2 := c.b][o + 3 := c.a]
    else buf
  }

  /** The write changes exactly the four components of pixel (x, y), to the colour's
      channels in order. */
  lemma PutPixelAt(buf: seq<real>, w: nat, h: nat, x: int, y: int, c: Color, i: nat)
    requires |buf| == w * h * 4 && InFrame(w, h, x, y) && i < |buf|
    ensures PutPixel(buf, w, h, x, y, c)[i] ==
      if PixelX(w, i) == x && PixelY(w, i) == y then c.Channel(i % 4) else buf[i]
  {
    PixelBounds(w, h, x, y);
    PixelSlots(w, h, x, y);
  }

  /** The four components at the pixel's offset are the colour's, in order. */
  lemma PixelWritten(buf: seq<real>, w: nat, h: nat, x: int, y: int, c: Color)
    requires |buf| == w * h * 4 && InFrame(w, h, x, y)
    ensures 0 <= Offset(w, x, y) && Offset(w, x, y) + 4 <= |buf|
    ensures PutPixel(buf, w, h, x, y, c)[Offset(w, x, y)..Offset(w, x, y) + 4] == [c.r, c.g, c.b, c.a]
  {
    PixelBounds(w, h, x, y);
    var o := Offset(w, x, y);
    var r := PutPixel(buf, w, h, x, y, c);
    assert r[o..o + 4] == [r[o], r[o + 1], r[o + 2], r[o + 3]];
  }

  /** Every component in the buffer lies in [0, 1]. */
  predicate UnitValues(buf: seq<real>) {
    forall i :: 0 <= i < |buf| ==> 0.0 <= buf[i] <= 1.0
  }

  /** Writing a clamped colour keeps every component of the buffer in [0, 1]. */
  lemma PutPixelUnit(buf: seq<real>, w: nat, h: nat, x: int, y: int, c: Color)
    requires |buf| == w * h * 4 && InFrame(w, h, x, y) && UnitValues(buf) && c.Clamped()
    ensures UnitValues(PutPixel(buf, w, h, x, y, c))
  {
    var r := PutPixel(buf, w, h, x, y, c);
    forall i | 0 <= i < |r| ensures 0.0 <= r[i] <= 1.0 {
      PutPixelAt(buf, w, h, x, y, c, i);
      if PixelX(w, i) == x && PixelY(w, i) == y {
        ChannelUnit(c, i % 4);
      }
    }
  }

  lemma ChannelUnit(c: Color, k: nat)
    requires c.Clamped() && k < 4
    ensures 0.0 <= c.Channel(k) <= 1.0
  {
  }

  /** Writes the four components of pixel (x, y), the assignments drawPoint makes and
      drawLine and drawTriangle repeat for every pixel they draw. */
  method StorePixel(data: array<real>, w: nat, h: nat, x: int, y: int, c: Color)
    requires data.Length == w * h * 4 && InFrame(w, h, x, y)
    modifies data
    ensures data[..] == PutPixel(old(data[..]), w, h, x, y, c)
  {
    PixelBounds(w, h, x, y);
    var o := Offset(w, x, y);
    data[o + 0] := c.r;
    data[o + 1] := c.g;
    data[o + 2] := c.b;
    data[o + 3] := c.a;
    assert data[..] == old(data[..])[o := c.r][o + 1 := c.g][o + 2 := c.b][o + 3 := c.a];
  }

  /** drawPoint: the pixel at the floored window position takes the vertex colour. */
  method DrawPoint(p: Vertex, data: array<real>, w: nat, h: nat)
    requires data.Length == w * h * 4 && InFrame(w, h, p.x.Floor, p.y.Floor)
    modifies data
    ensures data[..] == PutPixel(old(data[..]), w, h, p.x.Floor, p.y.Floor, p.color)
  {
    StorePixel(data, w, h, p.x.Floor, p.y.Floor, p.color);
  }
}
