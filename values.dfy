/** The engine's value types the helpers work on, and the component-update
    helpers over them. Components are exact reals; the engine's floats and
    their rounding are not modelled. */
module Values {

  datatype Color = Color(r: real, g: real, b: real, a: real)

  datatype Vector2 = Vector2(x: real, y: real)

  datatype Vector3 = Vector3(x: real, y: real, z: real)

  /** The colour with its alpha replaced by `alpha`, passed through as given
      (no clamping to [0, 1]). */
  function SetAlpha(color: Color, alpha: real): (c: Color)
    ensures c.a == alpha
    ensures c.r == color.r && c.g == color.g && c.b == color.b
  {
    Color(color.r, color.g, color.b, alpha)
  }

  /** The 2D vector lifted to 3D: x and y kept, z set to `newZ` (0 by default). */
  function ToVector3(v: Vector2, newZ: real := 0.0): (r: Vector3)
    ensures r.x == v.x && r.y == v.y && r.z == newZ
  {
    Vector3(v.x, v.y, newZ)
  }

  /** Linear interpolation from `from` to `to` by `s`, unclamped: `s` = 0
      gives `from`, `s` = 1 gives `to`. */
  function Lerp(from: real, to: real, s: real): (r: real)
    ensures s == 0.0 ==> r == from
    ensures s == 1.0 ==> r == to
    ensures from == to ==> r == from
  {
    from + (to - from) * s
  }

  /** Interpolating from `to` to `from` by `s` is interpolating from `from`
      to `to` by 1 - `s`. */
  lemma LerpReversed(from: real, to: real, s: real)
    ensures Lerp(from, to, s) == Lerp(to, from, 1.0 - s)
  {
  }

  /** Component-wise linear interpolation of vectors. */
  function LerpVector(from: Vector3, to: Vector3, s: real): (r: Vector3)
    ensures r.x == Lerp(from.x, to.x, s)
    ensures r.y == Lerp(from.y, to.y, s)
    ensures r.z == Lerp(from.z, to.z, s)
  {
    Vector3(Lerp(from.x, to.x, s), Lerp(from.y, to.y, s), Lerp(from.z, to.z, s))
  }

  /** Vector interpolation hits its end points exactly. */
  lemma LerpVectorEnds(from: Vector3, to: Vector3)
    ensures LerpVector(from, to, 0.0) == from
    ensures LerpVector(from, to, 1.0) == to
  {
  }
}
