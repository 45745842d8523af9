/** Primitive assembly in end: the submitted vertices are consumed in groups of one
    (points), two (lines) or three (triangles), and each group is drawn into the colour
    buffer in submission order. */
module Assembly {
  import opened GL
  import opened Colors
  import opened Pixels
  import LineDrawing
  import TriangleDrawing

  /** The number of vertices one primitive of `mode` takes. */
  function Stride(mode: int): (s: nat)
    requires IsBeginMode(mode)
    ensures 1 <= s <= 3
    ensures mode == Points <==> s == 1
    ensures mode == Lines <==> s == 2
    ensures mode == Triangles <==> s == 3
  {
    if mode == Points then 1 else if mode == Lines then 2 else 3
  }

  /** One group meets the demands of its draw function. */
  predicate GroupDrawable(mode: int, g: seq<Vertex>, w: nat, h: nat)
    requires IsBeginMode(mode) && |g| == Stride(mode)
  {
    if mode == Points then InFrame(w, h, g[0].x.Floor, g[0].y.Floor)
    else if mode == Lines then LineDrawing.Drawable(g[0], g[1], w, h)
    else TriangleDrawing.Drawable(g[0], g[1], g[2], w, h)
  }

  /** The vertex list splits into whole groups, each of them drawable. */
  predicate Drawable(mode: int, vs: seq<Vertex>, w: nat, h: nat)
    requires IsBeginMode(mode)
    decreases |vs|
  {
    var s := Stride(mode);
    |vs| == 0 || (s <= |vs| && GroupDrawable(mode, vs[..s], w, h) && Drawable(mode, vs[s..], w, h))
  }

  /** The buffer after one group is drawn: drawPoint, drawLine or drawTriangle. */
  function DrawGroup(buf: seq<real>, w: nat, h: nat, mode: int, g: seq<Vertex>): (r: seq<real>)
    requires |buf| == w * h * 4 && IsBeginMode(mode) && |g| == Stride(mode)
    requires GroupDrawable(mode, g, w, h)
    ensures |r| == |buf|
  {
    if mode == Points then PutPixel(buf, w, h, g[0].x.Floor, g[0].y.Floor, g[0].color)
    else if mode == Lines then LineDrawing.LineImage(buf, w, h, g[0], g[1])
    else TriangleDrawing.TriangleImage(buf, w, h, TriangleDrawing.TriOf(g[0], g[1], g[2]))
  }

  /** The buffer after every group is drawn, first group first. */
  function DrawAll(buf: seq<real>, w: nat, h: nat, mode: int, vs: seq<Vertex>): (r: seq<real>)
    requires |buf| == w * h * 4 && IsBeginMode(mode) && Drawable(mode, vs, w, h)
    ensures |r| == |buf|
    decreases |vs|
  {
    if |vs| == 0 then buf
    else
      var s := Stride(mode);
      DrawAll(DrawGroup(buf, w, h, mode, vs[..s]), w, h, mode, vs[s..])
  }

  /** A drawable vertex list holds a whole number of groups. */
  lemma {:induction false} DrawableWhole(mode: int, vs: seq<Vertex>, w: nat, h: nat)
    requires IsBeginMode(mode) && Drawable(mode, vs, w, h)
    ensures |vs| % Stride(mode) == 0
    decreases |vs|
  {
    var s := Stride(mode);
    if |vs| > 0 {
      DrawableWhole(mode, vs[s..], w, h);
      assert |vs| == |vs[s..]| + s;
    }
  }

  /** Lists of whole drawable groups concatenate into a drawable list, and drawing the
      concatenation is drawing one list after the other. */
  lemma {:induction false} DrawAllAppend(buf: seq<real>, w: nat, h: nat, mode: int, us: seq<Vertex>, vs: seq<Vertex>)
    requires |buf| == w * h * 4 && IsBeginMode(mode)
    requires Drawable(mode, us, w, h) && Drawable(mode, vs, w, h)
    ensures Drawable(mode, us + vs, w, h)
    ensures DrawAll(buf, w, h, mode, us + vs) == DrawAll(DrawAll(buf, w, h, mode, us), w, h, mode, vs)
    decreases |us|
  {
    if |us| == 0 {
      assert us + vs == vs;
    } else {
      var s := Stride(mode);
      assert (us + vs)[..s] == us[..s];
      assert (us + vs)[s..] == us[s..] + vs;
      DrawAllAppend(DrawGroup(buf, w, h, mode, us[..s]), w, h, mode, us[s..], vs);
    }
  }

  /** Every vertex carries a clamped colour. */
  predicate ClampedColors(vs: seq<Vertex>) {
    forall k :: 0 <= k < |vs| ==> vs[k].color.Clamped()
  }

  /** Drawing vertices with clamped colours keeps the buffer's components in [0, 1]. */
  lemma {:induction false} DrawAllUnit(buf: seq<real>, w: nat, h: nat, mode: int, vs: seq<Vertex>)
    requires |buf| == w * h * 4 && IsBeginMode(mode) && Drawable(mode, vs, w, h)
    requires UnitValues(buf) && ClampedColors(vs)
    ensures UnitValues(DrawAll(buf, w, h, mode, vs))
    decreases |vs|
  {
    if |vs| > 0 {
      var s := Stride(mode);
      var g := vs[..s];
      if mode == Points {
        PutPixelUnit(buf, w, h, g[0].x.Floor, g[0].y.Floor, g[0].color);
      } else if mode == Lines {
        LineDrawing.LineUnit(buf, w, h, g[0], g[1]);
      } else {
        TriangleDrawing.TriangleUnit(buf, w, h, TriangleDrawing.TriOf(g[0], g[1], g[2]));
      }
      DrawAllUnit(DrawGroup(buf, w, h, mode, g), w, h, mode, vs[s..]);
    }
  }

  /** Pixel (x, y) is written by the draw of group `g`. */
  ghost predicate Touches(w: nat, h: nat, mode: int, g: seq<Vertex>, x: int, y: int)
    requires IsBeginMode(mode) && |g| == Stride(mode) && GroupDrawable(mode, g, w, h)
  {
    if mode == Points then x == g[0].x.Floor && y == g[0].y.Floor
    else if mode == Lines then
      var l := LineDrawing.LineOf(g[0], g[1]);
      LineDrawing.OnWalk(l, l.Major() + 1, x, y)
    else TriangleDrawing.Covered(TriangleDrawing.TriOf(g[0], g[1], g[2]), x, y)
  }

  /** Pixel (x, y) is written by the draw of some group of `vs`. */
  ghost predicate Covers(w: nat, h: nat, mode: int, vs: seq<Vertex>, x: int, y: int)
    requires IsBeginMode(mode) && Drawable(mode, vs, w, h)
    decreases |vs|
  {
    var s := Stride(mode);
    |vs| > 0 && (Touches(w, h, mode, vs[..s], x, y) || Covers(w, h, mode, vs[s..], x, y))
  }

  /** A group's draw leaves every pixel it does not touch as it was. */
  lemma DrawGroupFrame(buf: seq<real>, w: nat, h: nat, mode: int, g: seq<Vertex>, i: nat)
    requires |buf| == w * h * 4 && IsBeginMode(mode) && |g| == Stride(mode)
    requires GroupDrawable(mode, g, w, h) && i < |buf|
    requires !Touches(w, h, mode, g, PixelX(w, i), PixelY(w, i))
    ensures DrawGroup(buf, w, h, mode, g)[i] == buf[i]
  {
    if mode == Points {
      PutPixelAt(buf, w, h, g[0].x.Floor, g[0].y.Floor, g[0].color, i);
    } else if mode == Lines {
      LineDrawing.LineFrame(buf, w, h, g[0], g[1], i);
    } else if mode == Triangles {
      TriangleDrawing.TriangleImageAt(buf, w, h, TriangleDrawing.TriOf(g[0], g[1], g[2]), i);
    }
  }

  /** end leaves every pixel that no group touches as it was. */
  lemma {:induction false} DrawAllFrame(buf: seq<real>, w: nat, h: nat, mode: int, vs: seq<Vertex>, i: nat)
    requires |buf| == w * h * 4 && IsBeginMode(mode) && Drawable(mode, vs, w, h) && i < |buf|
    requires !Covers(w, h, mode, vs, PixelX(w, i), PixelY(w, i))
    ensures DrawAll(buf, w, h, mode, vs)[i] == buf[i]
    decreases |vs|
  {
    if |vs| > 0 {
      var s := Stride(mode);
      DrawGroupFrame(buf, w, h, mode, vs[..s], i);
      DrawAllFrame(DrawGroup(buf, w, h, mode, vs[..s]), w, h, mode, vs[s..], i);
    }
  }

  /** In point mode one vertex is drawPoint of that vertex. */
  lemma SinglePoint(buf: seq<real>, w: nat, h: nat, p: Vertex)
    requires |buf| == w * h * 4 && InFrame(w, h, p.x.Floor, p.y.Floor)
    ensures Drawable(Points, [p], w, h)
    ensures DrawAll(buf, w, h, Points, [p]) == PutPixel(buf, w, h, p.x.Floor, p.y.Floor, p.color)
  {
    assert [p][..1] == [p] && [p][1..] == [];
  }

  /** In point mode a pixel ends up with the colour of the last vertex on it. */
  lemma {:induction false} LastPointWins(buf: seq<real>, w: nat, h: nat, vs: seq<Vertex>, j: nat, i: nat)
    requires |buf| == w * h * 4 && Drawable(Points, vs, w, h) && i < |buf| && j < |vs|
    requires PixelX(w, i) == vs[j].x.Floor && PixelY(w, i) == vs[j].y.Floor
    requires forall k :: j < k < |vs| ==> !(PixelX(w, i) == vs[k].x.Floor && PixelY(w, i) == vs[k].y.Floor)
    ensures DrawAll(buf, w, h, Points, vs)[i] == vs[j].color.Channel(i % 4)
    decreases |vs|
  {
    var next := DrawGroup(buf, w, h, Points, vs[..1]);
    PutPixelAt(buf, w, h, vs[0].x.Floor, vs[0].y.Floor, vs[0].color, i);
    if j == 0 {
      assert next[i] == vs[0].color.Channel(i % 4);
      NoLaterPoint(next, w, h, vs[1..], i);
    } else {
      LastPointWins(next, w, h, vs[1..], j - 1, i);
    }
  }

  lemma {:induction false} NoLaterPoint(buf: seq<real>, w: nat, h: nat, vs: seq<Vertex>, i: nat)
    requires |buf| == w * h * 4 && Drawable(Points, vs, w, h) && i < |buf|
    requires forall k :: 0 <= k < |vs| ==> !(PixelX(w, i) == vs[k].x.Floor && PixelY(w, i) == vs[k].y.Floor)
    ensures DrawAll(buf, w, h, Points, vs)[i] == buf[i]
    decreases |vs|
  {
    if |vs| > 0 {
      PutPixelAt(buf, w, h, vs[0].x.Floor, vs[0].y.Floor, vs[0].color, i);
      NoLaterPoint(DrawGroup(buf, w, h, Points, vs[..1]), w, h, vs[1..], i);
    }
  }

  /** end's loop in point mode: drawPoint for each vertex in turn. */
  method DrawPoints(vs: seq<Vertex>, data: array<real>, w: nat, h: nat)
    requires data.Length == w * h * 4 && Drawable(Points, vs, w, h)
    modifies data
    ensures data[..] == DrawAll(old(data[..]), w, h, Points, vs)
  {
    ghost var image := DrawAll(data[..], w, h, Points, vs);
    var i := 0;
    while i < |vs|
      invariant 0 <= i <= |vs|
      invariant Drawable(Points, vs[i..], w, h)
      invariant DrawAll(data[..], w, h, Points, vs[i..]) == image
    {
      assert vs[i..][1..] == vs[i + 1..];
      DrawPoint(vs[i], data, w, h);
      i := i + 1;
    }
    assert vs[i..] == [];
  }

  /** end's loop in line mode: drawLine for each pair of vertices in turn. */
  method DrawLines(vs: seq<Vertex>, data: array<real>, w: nat, h: nat)
    requires data.Length == w * h * 4 && Drawable(Lines, vs, w, h)
    modifies data
    ensures data[..] == DrawAll(old(data[..]), w, h, Lines, vs)
  {
    ghost var image := DrawAll(data[..], w, h, Lines, vs);
    var i := 0;
    while i < |vs|
      invariant 0 <= i <= |vs|
      invariant Drawable(Lines, vs[i..], w, h)
      invariant DrawAll(data[..], w, h, Lines, vs[i..]) == image
    {
      assert vs[i..][2..] == vs[i + 2..];
      LineDrawing.DrawLine(vs[i], vs[i + 1], data, w, h);
      i := i + 2;
    }
    assert vs[i..] == [];
  }

  /** end's loop in triangle mode: drawTriangle for each triple of vertices in turn. */
  method DrawTriangles(vs: seq<Vertex>, data: array<real>, w: nat, h: nat)
    requires data.Length == w * h * 4 && Drawable(Triangles, vs, w, h)
    modifies data
    ensures data[..] == DrawAll(old(data[..]), w, h, Triangles, vs)
  {
    ghost var image := DrawAll(data[..], w, h, Triangles, vs);
    var i := 0;
    while i < |vs|
      invariant 0 <= i <= |vs|
      invariant Drawable(Triangles, vs[i..], w, h)
      invariant DrawAll(data[..], w, h, Triangles, vs[i..]) == image
    {
      assert vs[i..][3..] == vs[i + 3..];
      TriangleDrawing.DrawTriangle(vs[i], vs[i + 1], vs[i + 2], data, w, h);
      i := i + 3;
    }
    assert vs[i..] == [];
  }
}
