/** Short client programs against a 4 by 4 context, with what each one observes. */
module Scenarios {
  import opened GL
  import opened Colors
  import opened Pixels
  import opened GLContext

  /** Clearing to red and reading back as bytes gives (255, 0, 0, 255) for every one of
      the 16 pixels, with no error recorded. */
  method ClearToRed() returns (pixels: seq<real>, e: int)
    ensures |pixels| == 64
    ensures forall i :: 0 <= i < 64 ==> pixels[i] == [255.0, 0.0, 0.0, 255.0][i % 4]
    ensures e == NoError
  {
    var ctx := ClearedRed();
    var data := new real[64];
    var refused := ctx.ReadPixels(0, 0, 4, 4, Rgba, Byte, data);
    pixels := data[..64];
    var red := Color(1.0, 0.0, 0.0, 1.0);
    assert pixels == Readout(Fill(64, red), Byte);
    forall i | 0 <= i < 64
      ensures pixels[i] == [255.0, 0.0, 0.0, 255.0][i % 4]
    {
      ReadoutOfFill(64, red, i);
    }
    e := ctx.GetError();
  }

  /** A fresh 4 by 4 context after clearColor(1, 0, 0, 1) and clear(COLOR_BUFFER_BIT):
      every pixel red, no error, idle. */
  method ClearedRed() returns (ctx: Context)
    ensures fresh(ctx) && ctx.Valid() && ctx.w == 4 && ctx.h == 4
    ensures ctx.beginMode == Idle && ctx.err == NoError
    ensures ctx.bufColor[..] == Fill(64, Color(1.0, 0.0, 0.0, 1.0))
  {
    ctx := new Context(4, 4);
    var refused := ctx.ClearColor(1.0, 0.0, 0.0, 1.0);
    refused := ctx.Clear(ColorBufferBit);
  }

  /** A refused call inside a group is invisible to getError until end closes the group;
      then the stored INVALID_OPERATION shows. Inside the group, only the `null` result
      of clearColor tells the caller that it was refused. */
  method ErrorHiddenWhileOpen() returns (refused: bool, during: int, after: int)
    ensures refused && during == NoError && after == InvalidOperation
  {
    var ctx := new Context(4, 4);
    var began := ctx.Begin(Points);
    refused := ctx.ClearColor(0.0, 1.0, 0.0, 1.0);
    during := ctx.GetError();
    var ended := ctx.End();
    after := ctx.GetError();
  }

  /** A point takes the colour latched when its vertex was submitted, clamped, at the
      floored position: (1.5, 2.25) lands on pixel (1, 2). The vertex is taken as window
      coordinates: the transform in end is not part of this model. */
  method PointTakesLatchedColor() returns (pixel: seq<real>)
    ensures pixel == [1.0, 0.0, 0.5, 1.0]
  {
    var ctx := LatchedPoint();
    var data := new real[64];
    var refused := ctx.ReadPixels(0, 0, 4, 4, Rgba, Float, data);
    ReadoutFloat(ctx.bufColor[..]);
    pixel := data[36..40];
    assert pixel == data[..64][36..40];
  }

  /** A fresh 4 by 4 context after begin(POINTS), color3f(2, -1, 0.5),
      vertex3f(1.5, 2.25, 0), color3f(0, 0, 0) and end. */
  method LatchedPoint() returns (ctx: Context)
    ensures fresh(ctx) && ctx.Valid() && ctx.w == 4 && ctx.h == 4 && ctx.beginMode == Idle
    ensures ctx.bufColor[..][36..40] == [1.0, 0.0, 0.5, 1.0]
  {
    ctx := new Context(4, 4);
    var refused := ctx.Begin(Points);
    ctx.Color3f(2.0, -1.0, 0.5);
    refused := ctx.Vertex3f(1.5, 2.25, 0.0);
    ctx.Color3f(0.0, 0.0, 0.0);
    ghost var p := Vertex(1.5, 2.25, 0.0, Color(1.0, 0.0, 0.5, 1.0));
    assert ctx.beginVertices == [p];
    ghost var buf := ctx.bufColor[..];
    OnePoint(buf, p);
    refused := ctx.End();
  }

  /** Drawing the single point at (1.5, 2.25) writes its colour at indices 36 to 39. */
  lemma OnePoint(buf: seq<real>, p: Vertex)
    requires |buf| == 64 && p.x == 1.5 && p.y == 2.25
    ensures Assembly.Drawable(Points, [p], 4, 4)
    ensures Assembly.DrawAll(buf, 4, 4, Points, [p])[36..40] == [p.color.r, p.color.g, p.color.b, p.color.a]
  {
    assert p.x.Floor == 1 && p.y.Floor == 2;
    Assembly.SinglePoint(buf, 4, 4, p);
    PixelWritten(buf, 4, 4, 1, 2, p.color);
    assert Offset(4, 1, 2) == 36;
  }
}
