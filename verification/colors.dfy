/** Colours: four real components, and the clamp every colour setter applies. */
module Colors {

  /** An RGBA colour; the source keeps it as a four-element array. */
  datatype Color = Color(r: real, g: real, b: real, a: real) {

    /** Component `c` in array order: 0 red, 1 green, 2 blue, 3 alpha. */
    function Channel(c: nat): real
      requires c < 4
    {
      if c == 0 then r else if c == 1 then g else if c == 2 then b else a
    }

    /** Every component lies in [0, 1]. */
    predicate Clamped() {
      0.0 <= r <= 1.0 && 0.0 <= g <= 1.0 && 0.0 <= b <= 1.0 && 0.0 <= a <= 1.0
    }
  }

  /** The initial current colour of a context. */
  const White := Color(1.0, 1.0, 1.0, 1.0)

  /** The initial clear colour of a context. */
  const OpaqueBlack := Color(0.0, 0.0, 0.0, 1.0)

  /** fclamp: the nearest value in [0, 1]. */
  function FClamp(v: real): (r: real)
    ensures 0.0 <= r <= 1.0
    ensures 0.0 <= v <= 1.0 ==> r == v
    ensures v < 0.0 ==> r == 0.0
    ensures 1.0 < v ==> r == 1.0
  {
    if v < 0.0 then 0.0 else if v > 1.0 then 1.0 else v
  }

  /** Clamping twice is clamping once. */
  lemma FClampIdempotent(v: real)
    ensures FClamp(FClamp(v)) == FClamp(v)
  {
  }

  /** No value of [0, 1] is closer to `v` than FClamp(v). */
  lemma FClampNearest(v: real, t: real)
    requires 0.0 <= t <= 1.0
    ensures Distance(FClamp(v), v) <= Distance(t, v)
  {
  }

  /** Clamping keeps order. */
  lemma FClampMonotone(u: real, v: real)
    requires u <= v
    ensures FClamp(u) <= FClamp(v)
  {
  }

  function Distance(p: real, q: real): real {
    if p <= q then q - p else p - q
  }

  /** The colour built by clearColor and color4f: each component clamped. */
  function ClampColor(r: real, g: real, b: real, a: real): (c: Color)
    ensures c.Clamped()
    ensures Color(r, g, b, a).Clamped() ==> c == Color(r, g, b, a)
    ensures forall k :: 0 <= k < 4 ==> c.Channel(k) == FClamp(Color(r, g, b, a).Channel(k))
  {
    Color(FClamp(r), FClamp(g), FClamp(b), FClamp(a))
  }

  /** Clamping an already clamped colour again changes nothing. */
  lemma ClampColorIdempotent(c: Color)
    ensures ClampColor(c.r, c.g, c.b, c.a) == c <==> c.Clamped()
  {
  }
}
