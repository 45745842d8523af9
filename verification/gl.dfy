/** The numeric enumerations of the context, with the values OpenGL 1.1 gives them
    (jsgl.js:28-53). Calls receive these as plain numbers and validate them, so the
    model keeps them as integers. */
module GL {
  // Begin modes
  const Points: int := 0x0000
  const Lines: int := 0x0001
  const Triangles: int := 0x0004

  // Errors
  const NoError: int := 0x0000
  const InvalidEnum: int := 0x0500
  const InvalidValue: int := 0x0501
  const InvalidOperation: int := 0x0502

  // Pixel types
  const Byte: int := 0x1400
  const Float: int := 0x1406

  // Matrix modes
  const ModelView: int := 0x1700
  const Projection: int := 0x1701

  // Pixel formats
  const Rgba: int := 0x1908

  // Buffers
  const ColorBufferBit: int := 0x4000

  /** The value of beginMode while no primitive group is open. */
  const Idle: int := -1

  /** The modes begin accepts. */
  predicate IsBeginMode(mode: int) {
    mode == Points || mode == Lines || mode == Triangles
  }

  /** The values the error slot can hold. */
  predicate IsErrorCode(e: int) {
    e == NoError || e == InvalidEnum || e == InvalidValue || e == InvalidOperation
  }
}
