/** Exact three-dimensional vector arithmetic: the operations the separating-axis
    test needs from Blender's `mathutils.Vector` (subtraction, dot and cross product),
    over unbounded reals. */
module Vectors {

  /** A world-space point or a direction. */
  datatype Vec3 = Vec3(x: real, y: real, z: real)

  const Zero: Vec3 := Vec3(0.0, 0.0, 0.0)

  function Sub(a: Vec3, b: Vec3): Vec3 {
    Vec3(a.x - b.x, a.y - b.y, a.z - b.z)
  }

  function Dot(a: Vec3, b: Vec3): real {
    a.x * b.x + a.y * b.y + a.z * b.z
  }

  function Cross(a: Vec3, b: Vec3): Vec3 {
    Vec3(a.y * b.z - a.z * b.y, a.z * b.x - a.x * b.z, a.x * b.y - a.y * b.x)
  }

  function Scale(c: real, a: Vec3): Vec3 {
    Vec3(c * a.x, c * a.y, c * a.z)
  }

  /** Scaling the first factor of a dot product scales the product. */
  lemma DotScale(c: real, a: Vec3, b: Vec3)
    ensures Dot(Scale(c, a), b) == c * Dot(a, b)
  {
  }

  /** The cross product is orthogonal to its first factor. */
  lemma CrossOrthogonal(a: Vec3, b: Vec3)
    ensures Dot(Cross(a, b), a) == 0.0
  {
  }

  /** Multiplying by a positive factor keeps the sign of a real. */
  lemma PositiveFactorKeepsSign(c: real, t: real)
    requires c > 0.0
    ensures c * t > 0.0 <==> t > 0.0
    ensures c * t < 0.0 <==> t < 0.0
  {
    if t > 0.0 {
      assert c * t > 0.0;
    } else if t < 0.0 {
      assert c * -t > 0.0;
    } else {
      assert c * t == 0.0;
    }
  }
}
