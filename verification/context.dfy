/** GL.Context: the immediate-mode state machine. A context owns a fixed w by h colour
    buffer and keeps a sticky error slot, the clear colour, the open primitive group
    (its mode, the latched current colour and the vertices submitted so far) and two
    matrices with a pointer to the current one.

    The pure part describes each call as a transition of an abstract `State`; the class
    `Context` performs the same calls in place and is proved to follow that
    description. */
module GLContext {
  import opened GL
  import opened Colors
  import opened Pixels
  import opened Assembly

  /** Which of the two matrices `curMatrix` designates. */
  datatype MatrixSlot = ModelViewSlot | ProjectionSlot

  /** A matrix, recorded as the operations applied to it since it was created. The
      linear algebra behind these operations is not part of this model. */
  datatype Matrix =
    | Created
    | Identity
    | Translated(base: Matrix, x: real, y: real, z: real)
    | Scaled(base: Matrix, x: real, y: real, z: real)
    | Rotated(base: Matrix, angle: real, x: real, y: real, z: real)

  /** Everything a context holds, as a value. */
  datatype State = State(
    w: nat, h: nat,
    buffer: seq<real>,
    err: int,
    clearColor: Color,
    mode: int,
    color: Color,
    vertices: seq<Vertex>,
    current: MatrixSlot,
    modelView: Matrix,
    projection: Matrix)

  /** What every reachable state satisfies: a buffer of w*h*4 components; an error
      code in the slot; clamped colours everywhere; a valid mode or idle; and no pending
      vertices while idle. That the components stay in [0, 1] is stated apart, by
      ApplyUnit and RunUnit. */
  predicate Wellformed(s: State) {
    && |s.buffer| == s.w * s.h * 4
    && IsErrorCode(s.err)
    && s.clearColor.Clamped()
    && s.color.Clamped()
    && (s.mode == Idle || IsBeginMode(s.mode))
    && (s.mode == Idle ==> s.vertices == [])
    && ClampedColors(s.vertices)
  }

  /** A new context: no error, black opaque clear colour, white current colour, idle,
      model-view current. The buffer starts at zero. */
  function Initial(w: nat, h: nat): (s: State)
    ensures Wellformed(s) && |s.buffer| == w * h * 4 && UnitValues(s.buffer)
  {
    State(w, h, seq(w * h * 4, _ => 0.0), NoError, OpaqueBlack, Idle, White, [],
          ModelViewSlot, Created, Created)
  }

  /** The calls that change a context. color3f is color4f with alpha 1. */
  datatype Call =
    | ClearColor(r: real, g: real, b: real, a: real)
    | Clear(mask: int)
    | Begin(mode: int)
    | End
    | Color4f(r: real, g: real, b: real, a: real)
    | Vertex3f(x: real, y: real, z: real)
    | MatrixMode(mode: int)
    | LoadIdentity
    | Translatef(x: real, y: real, z: real)
    | Scalef(x: real, y: real, z: real)
    | Rotatef(angle: real, x: real, y: real, z: real)
    | ReadPixels(left: int, top: int, width: int, height: int, format: int, pixelType: int)

  /** The calls refused with INVALID_OPERATION while a group is open. */
  predicate Gated(c: Call) {
    c.ClearColor? || c.Begin? || c.MatrixMode? || c.LoadIdentity? || c.Translatef? ||
    c.Scalef? || c.Rotatef? || c.ReadPixels?
  }

  /** The one demand a call makes beyond a well-formed state: end draws only groups
      that are complete and drawable (Assembly.Drawable): every vertex on the frame
      after rounding, the two rounded end points of each line distinct, and the floored
      vertices of each triangle not collinear. Every other call, and end while idle,
      is always callable. */
  predicate Callable(s: State, c: Call): (ok: bool)
    requires Wellformed(s)
    ensures !c.End? || s.mode == Idle ==> ok
    ensures ok && c.End? && s.mode != Idle ==> |s.vertices| % Stride(s.mode) == 0
  {
    if c.End? && s.mode != Idle then
      var ok := Drawable(s.mode, s.vertices, s.w, s.h);
      if ok then DrawableWhole(s.mode, s.vertices, s.w, s.h); ok else ok
    else true
  }

  /** `mask & COLOR_BUFFER_BIT` is non-zero: bit 14 of the 32-bit two's-complement value
      of the integer mask, which is bit 14 of the mask itself. */
  predicate HasColorBit(mask: int) {
    mask % 0x8000 >= ColorBufferBit
  }

  /** HasColorBit is bit 14 of the mask: the parity of the mask shifted right by 14,
      with the floor division that an arithmetic shift of a two's-complement value is. */
  lemma ColorBitIsBit14(mask: int)
    ensures HasColorBit(mask) <==> (mask / ColorBufferBit) % 2 == 1
  {
    var q, r := mask / 0x8000, mask % 0x8000;
    var hi := if r >= ColorBufferBit then 1 else 0;
    assert mask == (2 * q + hi) * ColorBufferBit + (r - hi * ColorBufferBit);
    DivModUnique(mask, ColorBufferBit, 2 * q + hi, r - hi * ColorBufferBit);
    DivModUnique(2 * q + hi, 2, q, hi);
  }

  /** A buffer of `n` components each equal to channel i % 4 of `c`. */
  function Fill(n: nat, c: Color): (r: seq<real>)
    ensures |r| == n
    ensures forall i :: 0 <= i < n ==> r[i] == c.Channel(i % 4)
  {
    seq(n, i requires 0 <= i < n => c.Channel(i % 4))
  }

  /** Filling with a clamped colour gives components in [0, 1]. */
  lemma FillUnit(n: nat, c: Color)
    requires c.Clamped()
    ensures UnitValues(Fill(n, c))
  {
    forall i | 0 <= i < n
      ensures 0.0 <= Fill(n, c)[i] <= 1.0
    {
      ChannelUnit(c, i % 4);
    }
  }

  /** The matrix the current slot designates. */
  function CurrentOf(s: State): Matrix {
    if s.current == ModelViewSlot then s.modelView else s.projection
  }

  /** The state with the designated matrix replaced. */
  function WithCurrent(s: State, m: Matrix): (r: State)
    ensures CurrentOf(r) == m && r.current == s.current
    ensures r.current == ModelViewSlot ==> r.projection == s.projection
    ensures r.current == ProjectionSlot ==> r.modelView == s.modelView
  {
    if s.current == ModelViewSlot then s.(modelView := m) else s.(projection := m)
  }

  /** The error readPixels records, checked in order: open group, then format and
      type, then a negative size. */
  function ReadPixelsError(s: State, width: int, height: int, format: int, pixelType: int): (e: int)
    ensures e in {NoError, InvalidEnum, InvalidValue, InvalidOperation}
    ensures e == NoError <==>
      s.mode == Idle && format == Rgba && (pixelType == Byte || pixelType == Float) && width >= 0 && height >= 0
    ensures s.mode != Idle ==> e == InvalidOperation
    ensures s.mode == Idle && (format != Rgba || (pixelType != Byte && pixelType != Float)) ==> e == InvalidEnum
    ensures s.mode == Idle && format == Rgba && (pixelType == Byte || pixelType == Float) && (width < 0 || height < 0) ==>
      e == InvalidValue
  {
    if s.mode != Idle then InvalidOperation
    else if format != Rgba || (pixelType != Byte && pixelType != Float) then InvalidEnum
    else if width < 0 || height < 0 then InvalidValue
    else NoError
  }

  /** Whether a call returns `null`, as every refused call does; a call that is carried
      out returns `undefined`. color4f and color3f are never refused. clear is the one
      call that is not gated on the open group. */
  function Refused(s: State, c: Call): (refused: bool)
    ensures Gated(c) && s.mode != Idle ==> refused
    ensures (c.End? || c.Vertex3f?) ==> (refused <==> s.mode == Idle)
    ensures c.Color4f? ==> !refused
    ensures c.Clear? ==> (refused <==> c.mask > ColorBufferBit)
  {
    match c
    case Clear(mask) => mask - ColorBufferBit > 0
    case Begin(mode) => s.mode != Idle || !IsBeginMode(mode)
    case End => s.mode == Idle
    case Color4f(_, _, _, _) => false
    case Vertex3f(_, _, _) => s.mode == Idle
    case MatrixMode(mode) => s.mode != Idle || (mode != ModelView && mode != Projection)
    case ReadPixels(_, _, width, height, format, pixelType) =>
      ReadPixelsError(s, width, height, format, pixelType) != NoError
    case _ => s.mode != Idle
  }

  /** The state after one call. */
  function Apply(s: State, c: Call): (r: State)
    requires Wellformed(s) && Callable(s, c)
    ensures Wellformed(r)
    ensures r.w == s.w && r.h == s.h
  {
    match c
    case ClearColor(red, green, blue, alpha) =>
      if s.mode != Idle then s.(err := InvalidOperation)
      else s.(clearColor := ClampColor(red, green, blue, alpha))
    case Clear(mask) =>
      if mask - ColorBufferBit > 0 then s.(err := InvalidValue)
      else if HasColorBit(mask) then s.(buffer := Fill(|s.buffer|, s.clearColor))
      else s
    case Begin(mode) =>
      if s.mode != Idle then s.(err := InvalidOperation)
      else if !IsBeginMode(mode) then s.(err := InvalidEnum)
      else s.(mode := mode, vertices := [])
    case End =>
      if s.mode == Idle then s.(err := InvalidOperation)
      else s.(buffer := DrawAll(s.buffer, s.w, s.h, s.mode, s.vertices), mode := Idle, vertices := [])
    case Color4f(red, green, blue, alpha) =>
      s.(color := ClampColor(red, green, blue, alpha))
    case Vertex3f(x, y, z) =>
      if s.mode == Idle then s.(err := InvalidOperation)
      else s.(vertices := s.vertices + [Vertex(x, y, z, s.color)])
    case MatrixMode(mode) =>
      if s.mode != Idle then s.(err := InvalidOperation)
      else if mode != ModelView && mode != Projection then s.(err := InvalidEnum)
      else s.(current := if mode == ModelView then ModelViewSlot else ProjectionSlot)
    case LoadIdentity =>
      if s.mode != Idle then s.(err := InvalidOperation)
      else WithCurrent(s, Identity)
    case Translatef(x, y, z) =>
      if s.mode != Idle then s.(err := InvalidOperation)
      else WithCurrent(s, Translated(CurrentOf(s), x, y, z))
    case Scalef(x, y, z) =>
      if s.mode != Idle then s.(err := InvalidOperation)
      else WithCurrent(s, Scaled(CurrentOf(s), x, y, z))
    case Rotatef(angle, x, y, z) =>
      if s.mode != Idle then s.(err := InvalidOperation)
      else WithCurrent(s, Rotated(CurrentOf(s), angle, x, y, z))
    case ReadPixels(_, _, width, height, format, pixelType) =>
      var e := ReadPixelsError(s, width, height, format, pixelType);
      if e != NoError then s.(err := e) else s
  }

  /** Every call of the sequence is callable in the state the earlier ones leave. */
  predicate Runnable(s: State, calls: seq<Call>)
    requires Wellformed(s)
    decreases |calls|
  {
    |calls| == 0 || (Callable(s, calls[0]) && Runnable(Apply(s, calls[0]), calls[1..]))
  }

  /** The state after a sequence of calls; every state reached is well-formed. */
  function Run(s: State, calls: seq<Call>): (r: State)
    requires Wellformed(s) && Runnable(s, calls)
    ensures Wellformed(r) && r.w == s.w && r.h == s.h
    decreases |calls|
  {
    if |calls| == 0 then s else Run(Apply(s, calls[0]), calls[1..])
  }

  /** getError: no error while a group is open, the stored error otherwise. */
  function Reported(s: State): (e: int)
    requires Wellformed(s)
    ensures IsErrorCode(e)
    ensures s.mode != Idle ==> e == NoError
    ensures s.mode == Idle ==> e == s.err
  {
    if s.mode != Idle then NoError else s.err
  }

  /** What readPixels writes: every component scaled by 255 for BYTE and by 1 for FLOAT. */
  function Readout(buf: seq<real>, pixelType: int): (r: seq<real>)
    ensures |r| == |buf|
  {
    seq(|buf|, i requires 0 <= i < |buf| => buf[i] * (if pixelType == Byte then 255.0 else 1.0))
  }

  /** readPixels' copy loop: every component of the buffer, four per pass, scaled by 255
      for BYTE and by 1 for FLOAT, into the front of `data`. */
  method CopyOut(buf: array<real>, data: array<real>, pixelType: int)
    requires buf != data && data.Length >= buf.Length && buf.Length % 4 == 0
    modifies data
    ensures data[..buf.Length] == Readout(buf[..], pixelType)
    ensures data[buf.Length..] == old(data[buf.Length..])
  {
    var size := buf.Length;
    var i := 0;
    while i < size
      invariant 0 <= i <= size && i % 4 == 0
      invariant forall k :: 0 <= k < i ==> data[k] == buf[k] * (if pixelType == Byte then 255.0 else 1.0)
      invariant data[size..] == old(data[size..])
    {
      data[i + 0] := buf[i + 0] * (if pixelType == Byte then 255.0 else 1.0);
      data[i + 1] := buf[i + 1] * (if pixelType == Byte then 255.0 else 1.0);
      data[i + 2] := buf[i + 2] * (if pixelType == Byte then 255.0 else 1.0);
      data[i + 3] := buf[i + 3] * (if pixelType == Byte then 255.0 else 1.0);
      i := i + 4;
    }
    assert data[..size] == Readout(buf[..], pixelType);
  }

  // ---------------------------------------------------------------------------
  // Properties of the transitions

  /** Sequences of calls compose. */
  lemma {:induction false} RunAppend(s: State, first: seq<Call>, second: seq<Call>)
    requires Wellformed(s) && Runnable(s, first) && Runnable(Run(s, first), second)
    ensures Runnable(s, first + second)
    ensures Run(s, first + second) == Run(Run(s, first), second)
    decreases |first|
  {
    if |first| == 0 {
      assert first + second == second;
    } else {
      assert (first + second)[0] == first[0];
      assert (first + second)[1..] == first[1..] + second;
      RunAppend(Apply(s, first[0]), first[1..], second);
    }
  }

  /** Every call keeps the buffer's components in [0, 1]: clear fills with the clamped
      clear colour and end draws with clamped vertex colours. */
  lemma ApplyUnit(s: State, c: Call)
    requires Wellformed(s) && Callable(s, c) && UnitValues(s.buffer)
    ensures UnitValues(Apply(s, c).buffer)
  {
    if c.End? && s.mode != Idle {
      DrawAllUnit(s.buffer, s.w, s.h, s.mode, s.vertices);
    } else if c.Clear? {
      FillUnit(|s.buffer|, s.clearColor);
    }
  }

  /** ... and so does every sequence of calls. */
  lemma {:induction false} RunUnit(s: State, calls: seq<Call>)
    requires Wellformed(s) && Runnable(s, calls) && UnitValues(s.buffer)
    ensures UnitValues(Run(s, calls).buffer)
    decreases |calls|
  {
    if |calls| > 0 {
      ApplyUnit(s, calls[0]);
      RunUnit(Apply(s, calls[0]), calls[1..]);
    }
  }

  /** While a group is open, every gated call records INVALID_OPERATION and changes
      nothing else. */
  lemma GatedWhileOpen(s: State, c: Call)
    requires Wellformed(s) && s.mode != Idle && Gated(c)
    ensures Callable(s, c) && Apply(s, c) == s.(err := InvalidOperation)
  {
  }

  /** The `null` result and the error slot agree: a refused call stores an error code
      and changes nothing else, and a call that is carried out leaves the slot alone. */
  lemma RefusalOutcome(s: State, c: Call)
    requires Wellformed(s) && Callable(s, c)
    ensures Refused(s, c) ==>
      Apply(s, c) == s.(err := Apply(s, c).err) && Apply(s, c).err in {InvalidEnum, InvalidValue, InvalidOperation}
    ensures !Refused(s, c) ==> Apply(s, c).err == s.err
  {
  }

  /** Each call leaves the error slot as it was or stores an error in it: no call
      clears it, not even getError. */
  lemma ApplyKeepsError(s: State, c: Call)
    requires Wellformed(s) && Callable(s, c)
    ensures Apply(s, c).err == s.err || Apply(s, c).err in {InvalidEnum, InvalidValue, InvalidOperation}
  {
  }

  /** Once an error is recorded the slot never holds NO_ERROR again. */
  lemma {:induction false} ErrorNeverClears(s: State, calls: seq<Call>)
    requires Wellformed(s) && Runnable(s, calls) && s.err != NoError
    ensures Run(s, calls).err != NoError
    decreases |calls|
  {
    if |calls| > 0 {
      ApplyKeepsError(s, calls[0]);
      ErrorNeverClears(Apply(s, calls[0]), calls[1..]);
    }
  }

  /** begin: INVALID_OPERATION while a group is open, INVALID_ENUM for a mode other
      than POINTS, LINES and TRIANGLES, and otherwise an empty group of that mode. */
  lemma BeginOutcome(s: State, mode: int)
    requires Wellformed(s)
    ensures var r := Apply(s, Begin(mode));
      && (s.mode != Idle ==> r == s.(err := InvalidOperation))
      && (s.mode == Idle && !IsBeginMode(mode) ==> r == s.(err := InvalidEnum))
      && (s.mode == Idle && IsBeginMode(mode) ==> r == s.(mode := mode, vertices := []))
      && (r.mode != Idle <==> s.mode != Idle || IsBeginMode(mode))
  {
  }

  predicate AllVertices(calls: seq<Call>) {
    forall k :: 0 <= k < |calls| ==> calls[k].Vertex3f?
  }

  /** The vertices a run of vertex3f calls submits, each with the latched colour. */
  function Submitted(calls: seq<Call>, color: Color): (vs: seq<Vertex>)
    requires AllVertices(calls)
    ensures |vs| == |calls|
  {
    seq(|calls|, k requires 0 <= k < |calls| => Vertex(calls[k].x, calls[k].y, calls[k].z, color))
  }

  /** Inside a group, each vertex3f appends exactly one vertex carrying the current
      colour and changes nothing else. */
  lemma {:induction false} SubmitVertices(s: State, calls: seq<Call>)
    requires Wellformed(s) && s.mode != Idle && AllVertices(calls)
    ensures Runnable(s, calls)
    ensures Run(s, calls) == s.(vertices := s.vertices + Submitted(calls, s.color))
    decreases |calls|
  {
    if |calls| > 0 {
      var c := calls[0];
      var next := Apply(s, c);
      assert next == s.(vertices := s.vertices + [Vertex(c.x, c.y, c.z, s.color)]);
      SubmitVertices(next, calls[1..]);
      assert [Vertex(c.x, c.y, c.z, s.color)] + Submitted(calls[1..], s.color) == Submitted(calls, s.color);
    }
  }

  /** Outside a group, vertex3f records INVALID_OPERATION and appends nothing. */
  lemma VertexOutsideGroup(s: State, x: real, y: real, z: real)
    requires Wellformed(s) && s.mode == Idle
    ensures Apply(s, Vertex3f(x, y, z)) == s.(err := InvalidOperation)
  {
  }

  /** Outside a group, end records INVALID_OPERATION and changes nothing else. */
  lemma EndOutsideGroup(s: State)
    requires Wellformed(s) && s.mode == Idle
    ensures Callable(s, End) && Apply(s, End) == s.(err := InvalidOperation)
  {
  }

  /** begin, a run of vertex3f and end draw the submitted vertices, grouped by the mode,
      into the buffer and leave the context idle with everything else as before. */
  lemma GroupDrawn(s: State, mode: int, calls: seq<Call>)
    requires Wellformed(s) && s.mode == Idle && IsBeginMode(mode) && AllVertices(calls)
    requires Drawable(mode, Submitted(calls, s.color), s.w, s.h)
    ensures Runnable(s, [Begin(mode)] + calls + [End])
    ensures Run(s, [Begin(mode)] + calls + [End]) ==
      s.(buffer := DrawAll(s.buffer, s.w, s.h, mode, Submitted(calls, s.color)))
  {
    var started := Apply(s, Begin(mode));
    assert Run(s, [Begin(mode)]) == started;
    SubmitVertices(started, calls);
    var filled := Run(started, calls);
    RunAppend(s, [Begin(mode)], calls);
    assert [] + Submitted(calls, s.color) == Submitted(calls, s.color);
    assert Callable(filled, End);
    assert Run(filled, [End]) == Apply(filled, End);
    RunAppend(s, [Begin(mode)] + calls, [End]);
  }

  /** clear: a mask above COLOR_BUFFER_BIT records INVALID_VALUE and leaves the buffer;
      a mask with the bit fills every component with the clear colour's channel for its
      position; any other mask changes nothing. */
  lemma ClearOutcome(s: State, mask: int)
    requires Wellformed(s)
    ensures var r := Apply(s, Clear(mask));
      && (mask > ColorBufferBit ==> r == s.(err := InvalidValue))
      && (mask <= ColorBufferBit && HasColorBit(mask) ==>
            r == s.(buffer := Fill(|s.buffer|, s.clearColor)) && |r.buffer| == |s.buffer| &&
            forall i :: 0 <= i < |r.buffer| ==> r.buffer[i] == s.clearColor.Channel(i % 4))
      && (mask <= ColorBufferBit && !HasColorBit(mask) ==> r == s)
  {
  }

  /** Among the masks clear accepts that are not negative, only COLOR_BUFFER_BIT itself
      has the bit: 0 changes nothing. */
  lemma ColorBitOfAcceptedMask(mask: int)
    requires 0 <= mask <= ColorBufferBit
    ensures HasColorBit(mask) <==> mask == ColorBufferBit
  {
  }

  /** Clearing twice with the same mask is clearing once. */
  lemma ClearIdempotent(s: State, mask: int)
    requires Wellformed(s)
    ensures Apply(Apply(s, Clear(mask)), Clear(mask)) == Apply(s, Clear(mask))
  {
  }

  /** clearColor, outside a group, stores the clamp of its arguments and changes
      nothing else. */
  lemma ClearColorClamped(s: State, red: real, green: real, blue: real, alpha: real)
    requires Wellformed(s) && s.mode == Idle
    ensures Apply(s, ClearColor(red, green, blue, alpha)) == s.(clearColor := ClampColor(red, green, blue, alpha))
    ensures Apply(s, ClearColor(red, green, blue, alpha)).clearColor.Clamped()
  {
  }

  /** color4f is not gated: inside a group or outside it, it stores the clamp of its
      arguments as the current colour and changes nothing else, so vertices submitted
      later in the same group take the new colour. */
  lemma Color4fClamped(s: State, red: real, green: real, blue: real, alpha: real)
    requires Wellformed(s)
    ensures Apply(s, Color4f(red, green, blue, alpha)) == s.(color := ClampColor(red, green, blue, alpha))
    ensures Apply(s, Color4f(red, green, blue, alpha)).color.Clamped()
  {
  }

  /** The matrix calls change only the designated matrix; matrixMode only the slot. */
  lemma MatrixCallsLocal(s: State, c: Call)
    requires Wellformed(s) && s.mode == Idle
    requires c.LoadIdentity? || c.Translatef? || c.Scalef? || c.Rotatef? || c.MatrixMode?
    ensures var r := Apply(s, c);
      && r.buffer == s.buffer && r.mode == s.mode && r.vertices == s.vertices
      && r.color == s.color && r.clearColor == s.clearColor
      && (!c.MatrixMode? ==> r.err == s.err && r.current == s.current)
      && (!c.MatrixMode? && s.current == ModelViewSlot ==> r.projection == s.projection)
      && (!c.MatrixMode? && s.current == ProjectionSlot ==> r.modelView == s.modelView)
      && (c.MatrixMode? ==> r.modelView == s.modelView && r.projection == s.projection)
  {
  }

  /** matrixMode outside a group: MODELVIEW and PROJECTION select their matrix, any other
      mode records INVALID_ENUM; nothing else changes. */
  lemma MatrixModeOutcome(s: State, mode: int)
    requires Wellformed(s) && s.mode == Idle
    ensures mode == ModelView ==> Apply(s, MatrixMode(mode)) == s.(current := ModelViewSlot)
    ensures mode == Projection ==> Apply(s, MatrixMode(mode)) == s.(current := ProjectionSlot)
    ensures mode != ModelView && mode != Projection ==> Apply(s, MatrixMode(mode)) == s.(err := InvalidEnum)
  {
  }

  /** readPixels changes the context only by the error it records; a call with no
      error leaves it as it was. */
  lemma ReadPixelsOutcome(s: State, left: int, top: int, width: int, height: int, format: int, pixelType: int)
    requires Wellformed(s)
    ensures var e := ReadPixelsError(s, width, height, format, pixelType);
      var r := Apply(s, ReadPixels(left, top, width, height, format, pixelType));
      && (e != NoError ==> r == s.(err := e))
      && (e == NoError ==> r == s)
  {
  }

  /** Reading back a cleared buffer in BYTE gives 255 times the clear colour's channel
      for every component. */
  lemma ReadoutOfFill(n: nat, c: Color, i: nat)
    requires i < n
    ensures Readout(Fill(n, c), Byte)[i] == 255.0 * c.Channel(i % 4)
  {
  }

  /** readPixels in FLOAT returns the buffer itself. */
  lemma ReadoutFloat(buf: seq<real>)
    ensures Readout(buf, Float) == buf
  {
  }

  /** readPixels in BYTE returns components in [0, 255], since every buffer component
      is in [0, 1]. */
  lemma ReadoutByteRange(s: State, i: nat)
    requires Wellformed(s) && UnitValues(s.buffer) && i < |s.buffer|
    ensures 0.0 <= Readout(s.buffer, Byte)[i] <= 255.0
  {
    assert 0.0 <= s.buffer[i] <= 1.0;
  }

  // ---------------------------------------------------------------------------
  // The context object

  class Context {
    const w: nat
    const h: nat
    const bufColor: array<real>
    var err: int
    var bufColorClear: Color
    var beginMode: int
    var beginColor: Color
    var beginVertices: seq<Vertex>
    var curMatrix: MatrixSlot
    var matModelView: Matrix
    var matProj: Matrix

    /** The context as a value. */
    function View(): State
      reads this, bufColor
    {
      State(w, h, bufColor[..], err, bufColorClear, beginMode, beginColor, beginVertices,
            curMatrix, matModelView, matProj)
    }

    predicate Valid()
      reads this, bufColor
    {
      bufColor.Length == w * h * 4 && Wellformed(View()) && UnitValues(bufColor[..])
    }

    constructor (w: nat, h: nat)
      ensures Valid() && View() == Initial(w, h) && fresh(bufColor)
    {
      this.w := w;
      this.h := h;
      bufColor := new real[w * h * 4](_ => 0.0);
      matModelView := Created;
      matProj := Created;
      curMatrix := ModelViewSlot;
      err := NoError;
      bufColorClear := OpaqueBlack;
      beginMode := Idle;
      beginColor := White;
      beginVertices := [];
      new;
      assert bufColor[..] == seq(w * h * 4, _ => 0.0);
    }

    method GetError() returns (e: int)
      requires Valid()
      ensures e == Reported(View())
      ensures beginMode != Idle ==> e == NoError
      ensures beginMode == Idle ==> e == err
    {
      if beginMode != Idle {
        return NoError;
      }
      return err;
    }

    method ClearColor(r: real, g: real, b: real, a: real) returns (refused: bool)
      requires Valid()
      modifies this
      ensures Valid() && View() == Apply(old(View()), Call.ClearColor(r, g, b, a))
      ensures refused == Refused(old(View()), Call.ClearColor(r, g, b, a))
    {
      if beginMode != Idle {
        err := InvalidOperation;
        return true;
      }
      bufColorClear := Color(FClamp(r), FClamp(g), FClamp(b), FClamp(a));
      refused := false;
    }

    method Clear(mask: int) returns (refused: bool)
      requires Valid()
      modifies this, bufColor
      ensures Valid() && View() == Apply(old(View()), Call.Clear(mask))
      ensures refused == Refused(old(View()), Call.Clear(mask))
    {
      if mask - ColorBufferBit > 0 {
        err := InvalidValue;
        return true;
      }
      if HasColorBit(mask) {
        var size := w * h * 4;
        for i := 0 to size
          modifies bufColor
          invariant forall k :: 0 <= k < i ==> bufColor[k] == bufColorClear.Channel(k % 4)
        {
          bufColor[i] := bufColorClear.Channel(i % 4);
        }
        assert bufColor[..] == Fill(size, bufColorClear);
        FillUnit(size, bufColorClear);
      }
      refused := false;
    }

    method Begin(mode: int) returns (refused: bool)
      requires Valid()
      modifies this
      ensures Valid() && View() == Apply(old(View()), Call.Begin(mode))
      ensures refused == Refused(old(View()), Call.Begin(mode))
    {
      if beginMode != Idle {
        err := InvalidOperation;
        return true;
      }
      if mode != Points && mode != Lines && mode != Triangles {
        err := InvalidEnum;
        return true;
      }
      beginMode := mode;
      beginVertices := [];
      refused := false;
    }

    method End() returns (refused: bool)
      requires Valid() && Callable(View(), Call.End)
      modifies this, bufColor
      ensures Valid() && View() == Apply(old(View()), Call.End)
      ensures refused == Refused(old(View()), Call.End)
    {
      if beginMode == Idle {
        err := InvalidOperation;
        return true;
      }
      ghost var before := View();
      ghost var image := DrawAll(before.buffer, w, h, beginMode, beginVertices);
      if beginMode == Points {
        DrawPoints(beginVertices, bufColor, w, h);
      } else if beginMode == Lines {
        DrawLines(beginVertices, bufColor, w, h);
      } else {
        DrawTriangles(beginVertices, bufColor, w, h);
      }
      assert bufColor[..] == image;
      DrawAllUnit(before.buffer, w, h, before.mode, before.vertices);
      beginMode := Idle;
      beginVertices := [];
      assert View() == before.(buffer := image, mode := Idle, vertices := []);
      assert View() == Apply(before, Call.End);
      refused := false;
    }

    method Color4f(r: real, g: real, b: real, a: real)
      requires Valid()
      modifies this
      ensures Valid() && View() == Apply(old(View()), Call.Color4f(r, g, b, a))
    {
      beginColor := Color(FClamp(r), FClamp(g), FClamp(b), FClamp(a));
    }

    method Color3f(r: real, g: real, b: real)
      requires Valid()
      modifies this
      ensures Valid() && View() == Apply(old(View()), Call.Color4f(r, g, b, 1.0))
    {
      Color4f(r, g, b, 1.0);
    }

    method Vertex3f(x: real, y: real, z: real) returns (refused: bool)
      requires Valid()
      modifies this
      ensures Valid() && View() == Apply(old(View()), Call.Vertex3f(x, y, z))
      ensures refused == Refused(old(View()), Call.Vertex3f(x, y, z))
    {
      if beginMode == Idle {
        err := InvalidOperation;
        return true;
      }
      beginVertices := beginVertices + [Vertex(x, y, z, beginColor)];
      refused := false;
    }

    method MatrixMode(mode: int) returns (refused: bool)
      requires Valid()
      modifies this
      ensures Valid() && View() == Apply(old(View()), Call.MatrixMode(mode))
      ensures refused == Refused(old(View()), Call.MatrixMode(mode))
    {
      if beginMode != Idle {
        err := InvalidOperation;
        return true;
      }
      if mode != ModelView && mode != Projection {
        err := InvalidEnum;
        return true;
      }
      curMatrix := if mode == ModelView then ModelViewSlot else ProjectionSlot;
      refused := false;
    }

    /** Replaces the designated matrix, as the library calls on `curMatrix` do through
        the shared reference. */
    method SetCurrent(m: Matrix)
      requires Valid()
      modifies this
      ensures Valid() && View() == WithCurrent(old(View()), m)
    {
      if curMatrix == ModelViewSlot {
        matModelView := m;
      } else {
        matProj := m;
      }
    }

    method LoadIdentity() returns (refused: bool)
      requires Valid()
      modifies this
      ensures Valid() && View() == Apply(old(View()), Call.LoadIdentity)
      ensures refused == Refused(old(View()), Call.LoadIdentity)
    {
      if beginMode != Idle {
        err := InvalidOperation;
        return true;
      }
      SetCurrent(Identity);
      refused := false;
    }

    method Translatef(x: real, y: real, z: real) returns (refused: bool)
      requires Valid()
      modifies this
      ensures Valid() && View() == Apply(old(View()), Call.Translatef(x, y, z))
      ensures refused == Refused(old(View()), Call.Translatef(x, y, z))
    {
      if beginMode != Idle {
        err := InvalidOperation;
        return true;
      }
      SetCurrent(Translated(CurrentOf(View()), x, y, z));
      refused := false;
    }

    method Scalef(x: real, y: real, z: real) returns (refused: bool)
      requires Valid()
      modifies this
      ensures Valid() && View() == Apply(old(View()), Call.Scalef(x, y, z))
      ensures refused == Refused(old(View()), Call.Scalef(x, y, z))
    {
      if beginMode != Idle {
        err := InvalidOperation;
        return true;
      }
      SetCurrent(Scaled(CurrentOf(View()), x, y, z));
      refused := false;
    }

    method Rotatef(angle: real, x: real, y: real, z: real) returns (refused: bool)
      requires Valid()
      modifies this
      ensures Valid() && View() == Apply(old(View()), Call.Rotatef(angle, x, y, z))
      ensures refused == Refused(old(View()), Call.Rotatef(angle, x, y, z))
    {
      if beginMode != Idle {
        err := InvalidOperation;
        return true;
      }
      SetCurrent(Rotated(CurrentOf(View()), angle, x, y, z));
      refused := false;
    }

    /** readPixels: on success the first w*h*4 components of `data` receive the whole
        buffer, scaled; `x` and `y` play no part. */
    method ReadPixels(x: int, y: int, width: int, height: int, format: int, pixelType: int, data: array<real>) returns (refused: bool)
      requires Valid() && data != bufColor && data.Length >= w * h * 4
      modifies this, data
      ensures Valid() && View() == Apply(old(View()), Call.ReadPixels(x, y, width, height, format, pixelType))
      ensures ReadPixelsError(old(View()), width, height, format, pixelType) != NoError ==> data[..] == old(data[..])
      ensures ReadPixelsError(old(View()), width, height, format, pixelType) == NoError ==>
        data[..w * h * 4] == Readout(bufColor[..], pixelType)
      ensures data[w * h * 4..] == old(data[w * h * 4..])
      ensures refused == Refused(old(View()), Call.ReadPixels(x, y, width, height, format, pixelType))
    {
      if beginMode != Idle {
        err := InvalidOperation;
        return true;
      }
      if format != Rgba || (pixelType != Byte && pixelType != Float) {
        err := InvalidEnum;
        return true;
      }
      if width < 0 || height < 0 {
        err := InvalidValue;
        return true;
      }

      CopyOut(bufColor, data, pixelType);
      refused := false;
    }
  }
}
