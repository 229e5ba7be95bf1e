/** Values shared by the flocking model: an optional reference and the plane
    and space vectors the engine hands to the steering code. */
module Basics {

  /** A reference that may be null. */
  datatype Option<+T> = None | Some(value: T)

  /** A point or direction on the steering plane (Unity's Vector2). */
  datatype Vec2 = Vec2(x: real, y: real)

  /** A world position (Unity's Vector3). */
  datatype Vec3 = Vec3(x: real, y: real, z: real)

  /** The implicit Vector3 -> Vector2 conversion: the z coordinate is dropped. */
  function Flat(v: Vec3): Vec2
  {
    Vec2(v.x, v.y)
  }

  function Sub(a: Vec2, b: Vec2): Vec2
  {
    Vec2(a.x - b.x, a.y - b.y)
  }

  function Scale(v: Vec2, k: real): Vec2
  {
    Vec2(v.x * k, v.y * k)
  }

  function Dot(a: Vec2, b: Vec2): real
  {
    a.x * b.x + a.y * b.y
  }

  /** Squared length, Unity's sqrMagnitude. */
  function SqrMagnitude(v: Vec2): real
  {
    Dot(v, v)
  }

  /** The plane offset from `from` to `to`, as the steering code computes it
      (world positions flattened to the plane). */
  function Offset(from: Vec3, to: Vec3): Vec2
  {
    Sub(Flat(to), Flat(from))
  }

  /** `dist` is the length of `v`: the engine's magnitude, given as an input
      because the model has no square root. */
  predicate IsLength(dist: real, v: Vec2)
  {
    dist >= 0.0 && dist * dist == SqrMagnitude(v)
  }
}
