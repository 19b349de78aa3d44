/** Small fixed-size value types shared by the pose head's geometry. */
module Vectors {

  /** A joint triple: (u, v, d) in heatmap space or (x, y, z) in camera space. */
  datatype Vec3 = Vec3(x: real, y: real, z: real)

  /** A twist encoding for one non-root joint: a (cos, sin) pair, not necessarily of unit length. */
  datatype Twist = Twist(cos: real, sin: real)

  const Origin: Vec3 := Vec3(0.0, 0.0, 0.0)

  function Add(p: Vec3, q: Vec3): Vec3
  {
    Vec3(p.x + q.x, p.y + q.y, p.z + q.z)
  }

  function Sub(p: Vec3, q: Vec3): Vec3
  {
    Vec3(p.x - q.x, p.y - q.y, p.z - q.z)
  }

  function Scale(p: Vec3, c: real): Vec3
  {
    Vec3(c * p.x, c * p.y, c * p.z)
  }

  function Dot(p: Vec3, q: Vec3): real
  {
    p.x * q.x + p.y * q.y + p.z * q.z
  }
}
