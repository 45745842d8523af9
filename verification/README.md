# jsgl: a verified model of the GL context

jsgl is a small software rasteriser with an OpenGL 1.x style immediate-mode interface. A
`GL.Context` owns a `w` by `h` RGBA colour buffer of reals (four per pixel, row after row),
a sticky error slot, a clear colour, the current colour, the open primitive group
(`begin` ... `end`) with the vertices submitted to it, and a model-view and a projection
matrix with a pointer to the current one. `end` assembles the submitted vertices into
points, lines or triangles and rasterises them into the buffer with `drawPoint`,
`drawLine` (an integer Bresenham walk with colours blended along it) and `drawTriangle`
(a bounding-box scan with barycentric weights). `readPixels` copies the buffer out,
scaled to bytes or as floats.

The model is split into modules that follow the program:

- `GL` (gl.dfy): the numeric constants: begin modes, error codes, pixel types, matrix
  modes, the pixel format and the colour-buffer bit.
- `Colors` (colors.dfy): colours and `fclamp`.
- `Pixels` (pixels.dfy): the buffer layout, the four-component pixel write and
  `drawPoint`.
- `LineDrawing` (lines.dfy): `drawLine`. Its loop is described by the pure walk `Step` /
  `Walk` and the image `PaintWalk` / `LineImage`. The method `DrawLine` (loop in
  `Stroke`) works in place on an `array<real>` and is proved to leave exactly that image.
- `TriangleDrawing` (triangles.dfy): `drawTriangle`. The image is `TriangleImage`; the
  scan state after each pixel is `Partial`. The method `DrawTriangle` keeps the two
  nested loops.
- `Assembly` (assembly.dfy): the grouping loops of `end`. `DrawAll` is the image of a
  whole vertex list; `DrawPoints`, `DrawLines` and `DrawTriangles` run the loops in place.
- `GLContext` (context.dfy): the context. `Apply` describes every state-changing call as
  a transition of an abstract `State`, and `Run` describes a sequence of calls. The class
  `Context` holds the source's fields and performs the calls in place. Each method is
  proved to move `View()` exactly as `Apply` says.
- `Scenarios` (scenarios.dfy): short client programs against a 4 by 4 context, with what
  each one observes.

Where the OpenGL 1.1 specification describes behaviour that the code does not have, the
model follows the code:

- `getError` returns the stored error without resetting it.
- Inside a group, `getError` reports `NO_ERROR`.
- `readPixels` ignores its `x` and `y` arguments and always copies the whole buffer.
- `drawTriangle` ignores the vertex colours and writes its three weights as red, green
  and blue.
- `drawLine` gives the first pixel the second vertex's colour and the last pixel the
  first vertex's colour.

## Model

| member | source | states |
|---|---|---|
| Colors.FClamp | jsgl.js:416-419 | the result lies in [0, 1]; it is the argument itself inside [0, 1], 0 below and 1 above |
| Colors.FClampNearest | jsgl.js:416-419 | no value of [0, 1] is closer to the argument than its clamp |
| Colors.FClampIdempotent | jsgl.js:416-419 | clamping a clamped value changes nothing |
| Colors.FClampMonotone | jsgl.js:416-419 | clamping keeps the order of its arguments |
| Colors.ClampColor | jsgl.js:108 | the colour stored by clearColor and color4f is clamped, each component is fclamp of its argument, and an already clamped argument is kept as is |
| Colors.ClampColorIdempotent | jsgl.js:190 | re-clamping a colour leaves it unchanged exactly when it is already clamped |
| Pixels.Ceil | jsgl.js:339-340 | Math.ceil: the least integer not below the argument |
| Pixels.PixelBounds | jsgl.js:324 | the four components of a pixel on the frame lie inside the w*h*4 buffer |
| Pixels.PixelSlots | jsgl.js:324 | the offset (x + y*w)*4 and the next three are exactly the indices whose column is x and whose row is y |
| Pixels.PutPixel | jsgl.js:324-328 | the pixel write keeps the buffer's length; it stores red, green, blue and alpha at (x + y*w)*4 and the three indices after it, and leaves an offset outside the buffer alone (its effect index by index is PutPixelAt) |
| Pixels.PutPixelAt | jsgl.js:324-328 | after a pixel write, every index of that pixel holds the colour's channel for its position, and every other index is unchanged |
| Pixels.PixelWritten | jsgl.js:324-328 | after a pixel write, the four components at the pixel's offset are red, green, blue and alpha in that order |
| Pixels.PutPixelUnit | jsgl.js:324-328 | writing a clamped colour keeps every buffer component in [0, 1] |
| Pixels.StorePixel | jsgl.js:353-357 | the four assignments change the buffer exactly as the pixel write of the given colour at (x, y) |
| Pixels.DrawPoint | jsgl.js:322-329 | drawPoint writes the vertex colour at the floored position and changes nothing else |
| LineDrawing.LineOf | jsgl.js:337-340 | the start pixel is the lattice point at or below the first vertex on each axis, and the end pixel the one at or above the second vertex |
| LineDrawing.Start | jsgl.js:337-345 | the walk starts at the floored first vertex with err = dx - dy, and the exit test holds there exactly when the line has length zero |
| LineDrawing.Step | jsgl.js:361-369 | one pass of the loop moves x by 0 or sx and y by 0 or sy |
| LineDrawing.Walk | jsgl.js:349-370 | the loop variables after k passes, Step applied k times to Start; what they satisfy is stated by WalkShape, WalkEnds, WalkMoves, WalkInBox and WalkDistinct |
| LineDrawing.StepKeepsShape | jsgl.js:361-369 | one step keeps the walk's invariant: the progress along both axes stays within the spans, and the error term tracks the deviation from the ideal line |
| LineDrawing.WalkShape | jsgl.js:349-370 | the invariant holds for every step up to totDist |
| LineDrawing.WalkEnds | jsgl.js:359 | the loop's exit test holds after exactly totDist steps and at no earlier step, so the loop ends at (x1, y1) |
| LineDrawing.WalkMoves | jsgl.js:361-369 | every step advances one pixel along the longer axis and at most one pixel along the other |
| LineDrawing.WalkInBox | jsgl.js:337-370 | every pixel of the walk lies in the bounding box of the two rounded end points |
| LineDrawing.WalkDistinct | jsgl.js:349-370 | no pixel is visited twice |
| LineDrawing.WalkInFrame | jsgl.js:337-370 | with both end points on the frame, every pixel of the walk is on the frame |
| LineDrawing.RemainingAt | jsgl.js:351 | after k steps, the distance left along the measured axis is totDist - k |
| LineDrawing.Weight | jsgl.js:351 | ic0 never exceeds 1 and is 1 at the end point; its value k / totDist at step k is WeightAt |
| LineDrawing.WeightAt | jsgl.js:351 | ic0 at step k is k / totDist: 0 at the first pixel, 1 at the last, always in [0, 1] |
| LineDrawing.BlendClamped | jsgl.js:352-357 | blending clamped colours with ic0 in [0, 1] and ic1 = 1 - ic0 gives a clamped colour |
| LineDrawing.BlendEnds | jsgl.js:352-357 | with ic0 = 0 the blend is the second colour; with ic0 = 1 it is the first |
| LineDrawing.Blend | jsgl.js:352-357 | the colour ic0 * first + (1 - ic0) * second, channel by channel; it is clamped for clamped colours (BlendClamped) and equals the end colours at weights 0 and 1 (BlendEnds) |
| LineDrawing.PaintWalkUnit | jsgl.js:349-370 | painting a walk with clamped colours keeps every component in [0, 1] |
| LineDrawing.PaintWalkFrame | jsgl.js:349-370 | painting the first n pixels of the walk leaves every other pixel unchanged |
| LineDrawing.PaintWalkAt | jsgl.js:349-370 | after the first n pixels are painted, pixel k < n holds the blend for its weight |
| LineDrawing.PaintWalk | jsgl.js:349-370 | the buffer after the first n pixels of the walk are written keeps its length; what each pixel holds is PaintWalkAt and PaintWalkFrame |
| LineDrawing.LineImage | jsgl.js:335-371 | the buffer drawLine leaves: all totDist + 1 pixels of the walk from the floored first vertex to the ceiled second one painted; what each pixel holds is LinePixel and LineFrame |
| LineDrawing.LineUnit | jsgl.js:335-371 | drawLine with clamped vertex colours keeps every component in [0, 1] |
| LineDrawing.LineFrame | jsgl.js:335-371 | drawLine leaves every pixel off its walk as it was |
| LineDrawing.LinePixel | jsgl.js:335-371 | drawLine gives the k-th pixel of the walk the blend with weight k / totDist for the first vertex |
| LineDrawing.LineStartColor | jsgl.js:351-357 | the start pixel (the first vertex, floored) receives the second vertex's colour |
| LineDrawing.LineEndColor | jsgl.js:351-357 | the end pixel (the second vertex, ceiled) receives the first vertex's colour |
| LineDrawing.Advance | jsgl.js:361-369 | the loop's two updates of err, x0 and y0, both decided by the same e2, take the cursor at step k to the walk's cursor at step k + 1 |
| LineDrawing.PaintPixel | jsgl.js:351-357 | one pass writes the walk's pixel k with its blend, so the buffer goes from the first k pixels painted to the first k + 1 |
| LineDrawing.Stroke | jsgl.js:341-370 | the loop leaves the buffer with all totDist + 1 pixels of the walk painted |
| LineDrawing.DrawLine | jsgl.js:335-371 | drawLine leaves exactly the line image of the rounded end points |
| TriangleDrawing.WeightsAt | jsgl.js:396-400 | ic0 + ic1 + ic2 = 1 |
| TriangleDrawing.Barycentric | jsgl.js:391-400 | the weights at (x, y) are its barycentric coordinates: they sum to 1 and recombine the vertices into (x, y) |
| TriangleDrawing.Covered | jsgl.js:396-401 | the three weight tests pass; this holds exactly for the lattice points of the closed triangle (CoveredIffInside) |
| TriangleDrawing.Unique | jsgl.js:391-400 | any weights that sum to 1 and recombine the vertices into (x, y) are the weights drawTriangle computes |
| TriangleDrawing.CoveredIffInside | jsgl.js:396-401 | a pixel passes the three weight tests exactly when it lies in the closed triangle |
| TriangleDrawing.CoveredInBox | jsgl.js:386-395 | the bounding-box scan never misses a pixel that passes the weight tests |
| TriangleDrawing.VertexShades | jsgl.js:396-407 | the three vertex pixels are drawn pure red, pure green and pure blue |
| TriangleDrawing.Shade | jsgl.js:403-407 | the colour written at a drawn pixel is (ic0, ic1, ic2, 1); TriangleImageAt states that it is clamped and sums to 1 |
| TriangleDrawing.TriangleImageAt | jsgl.js:377-410 | a pixel that passes the three weight tests holds (ic0, ic1, ic2, 1), clamped and with ic0 + ic1 + ic2 = 1; every other pixel is unchanged |
| TriangleDrawing.TriangleImage | jsgl.js:377-410 | the buffer drawTriangle leaves keeps its length; what each pixel holds is TriangleImageAt |
| TriangleDrawing.TriangleUnit | jsgl.js:403-407 | drawTriangle keeps every component in [0, 1] |
| TriangleDrawing.PartialStart | jsgl.js:394-395 | before the first pixel of the box, nothing is painted |
| TriangleDrawing.PartialNext | jsgl.js:396-407 | one pass of the inner loop paints pixel (x, y) with its shade exactly when its weights pass the tests |
| TriangleDrawing.PartialColumn | jsgl.js:394-395 | leaving a column below the box is the same as entering the next column at its top |
| TriangleDrawing.PartialEnd | jsgl.js:394-409 | past the last column, the scan has painted the whole triangle image |
| TriangleDrawing.BoxInFrame | jsgl.js:386-389 | with the three vertices on the frame, every pixel of the box is on the frame |
| TriangleDrawing.ScanWeights | jsgl.js:391-400 | the weights computed with factor are the barycentric weights |
| TriangleDrawing.DrawTriangle | jsgl.js:377-410 | drawTriangle leaves exactly the triangle image of the floored vertices |
| Assembly.Stride | jsgl.js:173-178 | points take one vertex, lines two and triangles three |
| Assembly.DrawGroup | jsgl.js:173-178 | one group is drawn by drawPoint, drawLine or drawTriangle according to the mode, and the buffer keeps its length; the pixels it leaves are DrawGroupFrame |
| Assembly.DrawAll | jsgl.js:173-178 | the groups are drawn first to last and the buffer keeps its length; concatenation, untouched pixels and point order are DrawAllAppend, DrawAllFrame and LastPointWins |
| Assembly.DrawableWhole | jsgl.js:173-178 | a drawable vertex list holds a whole number of groups |
| Assembly.DrawAllAppend | jsgl.js:173-178 | drawing two lists of whole groups in turn equals drawing their concatenation |
| Assembly.DrawAllUnit | jsgl.js:173-178 | assembling vertices with clamped colours keeps every component in [0, 1] |
| Assembly.DrawGroupFrame | jsgl.js:173-178 | drawing one group leaves every pixel it does not touch as it was |
| Assembly.DrawAllFrame | jsgl.js:173-178 | end leaves every pixel that no group touches as it was |
| Assembly.SinglePoint | jsgl.js:174 | in point mode, one vertex is drawPoint of that vertex |
| Assembly.LastPointWins | jsgl.js:174 | in point mode, a pixel ends with the colour of the last vertex that lands on it |
| Assembly.NoLaterPoint | jsgl.js:174 | in point mode, a pixel that no vertex lands on is unchanged |
| Assembly.DrawPoints | jsgl.js:174 | the point loop leaves the assembled image |
| Assembly.DrawLines | jsgl.js:176 | the line loop, one drawLine per pair, leaves the assembled image |
| Assembly.DrawTriangles | jsgl.js:178 | the triangle loop, one drawTriangle per triple, leaves the assembled image |
| GLContext.Initial | jsgl.js:62-82 | a new context is well formed, with a w*h*4 buffer whose components lie in [0, 1] |
| GLContext.Fill | jsgl.js:123-126 | the clear loop puts channel i % 4 of the clear colour at index i, for every index |
| GLContext.FillUnit | jsgl.js:123-126 | filling with a clamped colour gives components in [0, 1] |
| GLContext.HasColorBit | jsgl.js:122 | the test mask & COLOR_BUFFER_BIT != 0; ColorBitIsBit14 proves it is bit 14 of the mask |
| GLContext.ColorBitIsBit14 | jsgl.js:122 | the colour-bit test holds exactly when the mask shifted right by 14 is odd, the bit the 32-bit & examines, for negative masks too |
| GLContext.ReadPixelsError | jsgl.js:295-306 | the error readPixels stores is one of the four codes; it is NO_ERROR exactly when no group is open, the format is RGBA, the type is BYTE or FLOAT and neither size is negative; an open group gives INVALID_OPERATION whatever the arguments; otherwise a bad format or type gives INVALID_ENUM before the sizes are looked at, and only a good format and type with a negative size gives INVALID_VALUE |
| GLContext.ReadPixelsOutcome | jsgl.js:295-306 | readPixels changes the context only by storing its error; with no error the context is unchanged |
| GLContext.WithCurrent | jsgl.js:234-284 | a matrix call replaces the matrix curMatrix designates, and only that one |
| GLContext.Refused | jsgl.js:101-306 | whether a call returns `null`: every gated call is refused while a group is open; end and vertex3f are refused exactly while idle; clear is refused exactly for a mask above COLOR_BUFFER_BIT; color4f is never refused |
| GLContext.RefusalOutcome | jsgl.js:101-306 | a refused call stores INVALID_ENUM, INVALID_VALUE or INVALID_OPERATION and changes nothing else; a call that is carried out leaves the error slot as it was |
| GLContext.Callable | jsgl.js:153-182 | every call other than end, and end while idle, can be made; end of an open group that it accepts has a vertex count that is a whole number of primitives |
| GLContext.Apply | jsgl.js:101-316 | every call keeps the context well formed and keeps its size |
| GLContext.Run | jsgl.js:101-316 | a sequence of calls keeps the context well formed |
| GLContext.Reported | jsgl.js:88-92 | getError reports NO_ERROR while a group is open and the stored error otherwise; either way the result is an error code |
| GLContext.CopyOut | jsgl.js:308-315 | the copy loop writes every buffer component, scaled by 255 for BYTE and by 1 otherwise, to the front of data, and leaves the rest of data unchanged |
| GLContext.Readout | jsgl.js:311-314 | the components readPixels writes, as many as the buffer has; FLOAT gives the buffer itself (ReadoutFloat) and BYTE values in [0, 255] (ReadoutByteRange) |
| GLContext.RunAppend | jsgl.js:101-316 | running two call sequences in turn equals running their concatenation |
| GLContext.ApplyUnit | jsgl.js:115-182 | every call keeps the buffer's components in [0, 1] |
| GLContext.RunUnit | jsgl.js:101-316 | every sequence of calls keeps the buffer's components in [0, 1] |
| GLContext.GatedWhileOpen | jsgl.js:101-316 | while a group is open, clearColor, begin, matrixMode, loadIdentity, translatef, scalef, rotatef and readPixels store INVALID_OPERATION and change nothing else |
| GLContext.ApplyKeepsError | jsgl.js:88-316 | every call leaves the error slot unchanged or stores an error in it |
| GLContext.ErrorNeverClears | jsgl.js:88-92 | once an error is stored, no sequence of calls brings back NO_ERROR |
| GLContext.BeginOutcome | jsgl.js:134-147 | begin gives INVALID_OPERATION when a group is open and INVALID_ENUM for any mode but POINTS, LINES and TRIANGLES; otherwise it opens an empty group of that mode and changes nothing else; a group is open afterwards exactly when one was open before or the mode is valid |
| GLContext.SubmitVertices | jsgl.js:202-210 | inside a group, a run of vertex3f appends one vertex per call, each with the current colour, and changes nothing else |
| GLContext.VertexOutsideGroup | jsgl.js:204-207 | outside a group, vertex3f stores INVALID_OPERATION and appends nothing |
| GLContext.EndOutsideGroup | jsgl.js:155-158 | outside a group, end is callable, stores INVALID_OPERATION and changes nothing else |
| GLContext.GroupDrawn | jsgl.js:134-182 | begin, a run of vertex3f and end draw the submitted vertices into the buffer and leave everything else as before |
| GLContext.ClearOutcome | jsgl.js:115-128 | a mask above COLOR_BUFFER_BIT stores INVALID_VALUE; a mask with the bit fills every component with the clear colour's matching channel; any other mask changes nothing |
| GLContext.ColorBitOfAcceptedMask | jsgl.js:117-122 | of the non-negative masks clear accepts, only COLOR_BUFFER_BIT itself has the bit |
| GLContext.ClearIdempotent | jsgl.js:115-128 | clearing twice with the same mask is the same as clearing once |
| GLContext.ClearColorClamped | jsgl.js:101-109 | outside a group, clearColor stores the clamp of its arguments as the clear colour and changes nothing else |
| GLContext.Color4fClamped | jsgl.js:188-191 | inside a group or outside it, color4f stores the clamp of its arguments as the current colour and changes nothing else |
| GLContext.MatrixCallsLocal | jsgl.js:216-284 | matrixMode changes only the current-matrix slot (or the error); the other matrix calls change only the designated matrix |
| GLContext.MatrixModeOutcome | jsgl.js:222-227 | outside a group, MODELVIEW selects the model-view matrix and PROJECTION the projection matrix, changing nothing else; any other mode stores INVALID_ENUM and changes nothing else |
| GLContext.ReadoutFloat | jsgl.js:311-314 | in FLOAT, readPixels returns the buffer itself |
| GLContext.ReadoutOfFill | jsgl.js:311-314 | reading a buffer cleared to a colour in BYTE gives 255 times that colour's channel at every component |
| GLContext.ReadoutByteRange | jsgl.js:311-314 | in BYTE, readPixels returns components in [0, 255] |
| GLContext.Context.constructor | jsgl.js:62-82 | the new context is the initial state and is valid |
| GLContext.Context.GetError | jsgl.js:88-92 | returns the reported error and changes nothing |
| GLContext.Context.ClearColor | jsgl.js:101-109 | performs the clearColor transition in place and returns whether the call was refused (`null` in the source), as Refused says |
| GLContext.Context.Clear | jsgl.js:115-128 | performs the clear transition in place, filling the buffer with the clear colour and returns whether the call was refused (`null` in the source), as Refused says |
| GLContext.Context.Begin | jsgl.js:134-147 | performs the begin transition in place and returns whether the call was refused (`null` in the source), as Refused says |
| GLContext.Context.End | jsgl.js:153-182 | performs the end transition in place: the assembled image, idle, no vertices and returns whether the call was refused (`null` in the source), as Refused says |
| GLContext.Context.Color4f | jsgl.js:188-191 | performs the color4f transition in place |
| GLContext.Context.Color3f | jsgl.js:193-196 | performs color4f with alpha 1 |
| GLContext.Context.Vertex3f | jsgl.js:202-210 | performs the vertex3f transition in place and returns whether the call was refused (`null` in the source), as Refused says |
| GLContext.Context.MatrixMode | jsgl.js:216-228 | performs the matrixMode transition in place and returns whether the call was refused (`null` in the source), as Refused says |
| GLContext.Context.SetCurrent | jsgl.js:241-283 | the matrix curMatrix designates is replaced and nothing else changes, as the mat4 calls on the shared reference do |
| GLContext.Context.LoadIdentity | jsgl.js:234-242 | performs the loadIdentity transition in place and returns whether the call was refused (`null` in the source), as Refused says |
| GLContext.Context.Translatef | jsgl.js:248-256 | performs the translatef transition in place and returns whether the call was refused (`null` in the source), as Refused says |
| GLContext.Context.Scalef | jsgl.js:262-270 | performs the scalef transition in place and returns whether the call was refused (`null` in the source), as Refused says |
| GLContext.Context.Rotatef | jsgl.js:276-284 | performs the rotatef transition in place and returns whether the call was refused (`null` in the source), as Refused says |
| GLContext.Context.ReadPixels | jsgl.js:293-316 | performs the readPixels transition in place; on an error data is untouched, otherwise its first w*h*4 components receive the scaled buffer; components past w*h*4 are never touched; it returns whether the call was refused (`null` in the source), as Refused says |
| Scenarios.ClearToRed | jsgl.js:101-128 | after clearColor(1, 0, 0, 1) and clear(COLOR_BUFFER_BIT), reading bytes gives (255, 0, 0, 255) for every one of the 16 pixels, and getError gives NO_ERROR |
| Scenarios.ErrorHiddenWhileOpen | jsgl.js:88-109 | a refused clearColor inside a group returns `null`, while getError reports NO_ERROR until end, and INVALID_OPERATION after it |
| Scenarios.PointTakesLatchedColor | jsgl.js:188-210 | a point takes the colour, clamped, that was current when its vertex was submitted, at the floored position; the vertex is taken as window coordinates, since the transform in end is not modelled |

## Left out

- The vertex transform in `end` (jsgl.js:160-170) is not modelled. It multiplies by the
  model-view matrix through the external `mat4` library and maps to window coordinates
  with the global names `w` and `h` (jsgl.js:166-167) instead of `this.w` and `this.h`.
  This is a defect. The file never declares those globals, so reading `w` throws a
  ReferenceError at the first vertex of any non-empty group. If the host page happens to
  define globals `w` and `h`, the page's values are used instead of the context's size.
  The model applies no transform: the submitted vertices are taken as window
  coordinates.
- Matrix arithmetic is not modelled. A matrix is a symbolic record of the operations
  applied to it: created, identity, translated, scaled, rotated. `mat4` is not part of
  this model. `matrixMode` keeps a slot instead of an aliased reference. That is sound
  because `curMatrix` always refers to one of the two matrix objects (jsgl.js:72, 227),
  and every matrix call changes that object in place (jsgl.js:241, 255, 269, 283). So
  replacing the designated matrix is what those calls do to the object `end` later reads
  as `matModelView`.
- Floating point is modelled as exact reals: rounding, NaN and Infinity are left out.
  The same holds for the byte scaling of `readPixels`.
- Pixels.DrawPoint, LineDrawing.DrawLine, TriangleDrawing.DrawTriangle: these require
  every vertex, after rounding, to lie on the frame. The source checks nothing. An
  off-frame pixel whose offset falls inside the buffer lands on another row. An offset
  past the end makes the JavaScript array grow. A negative offset (for example when the
  floored y is negative) sets a property that is not an array index, and the array does
  not grow. `PutPixel` leaves the buffer unchanged for any out-of-buffer offset, and no
  draw method reaches that case.
- LineDrawing.DrawLine requires the two rounded end points to differ. The source divides
  by totDist = 0 there, which gives NaN components.
- TriangleDrawing.DrawTriangle requires the floored vertices not to be collinear. The
  source computes factor = 1/0 = Infinity there. At a pixel of the box off the line
  through the vertices, a non-zero numerator gives an infinite weight, which fails its
  test. At every lattice point of the box on that line, both numerators are 0, so ic0
  and ic1 are 0 times Infinity, which is NaN, and so is ic2. NaN fails neither
  comparison, so that pixel is written as (NaN, NaN, NaN, 1).
- GLContext.Callable: `end` is modelled only for complete groups. For a trailing
  incomplete group, the source reads an undefined vertex and throws.
- The colour buffer starts as an empty JavaScript array (jsgl.js:67); reading it before
  the first clear gives `undefined`. The model starts with zeros.
- GLContext.Context.ReadPixels requires `data` to be a separate array of at least w*h*4
  components. The source writes into any array, growing it as needed.
- GLContext.HasColorBit takes the clear mask as a mathematical integer. It models the
  32-bit `&` only for bit 14, which is the same for the two's-complement value;
  non-integer masks are not modelled.
- `vertexBuffer` (jsgl.js:81) is set but never read, so it is not modelled.
