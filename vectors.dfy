/** Exact 3-vectors: the `np.array(..., dtype=object)` of three Decimals that
    hold a body's position, velocity and acceleration. */
module Vectors {

  datatype Vec3 = Vec3(x: real, y: real, z: real)

  const Zero: Vec3 := Vec3(0.0, 0.0, 0.0)

  /** Component-wise `u + w`. */
  function Add(u: Vec3, w: Vec3): Vec3 {
    Vec3(u.x + w.x, u.y + w.y, u.z + w.z)
  }

  /** Component-wise `u - w`. */
  function Sub(u: Vec3, w: Vec3): Vec3 {
    Vec3(u.x - w.x, u.y - w.y, u.z - w.z)
  }

  /** Every component multiplied by the scalar `k` (numpy broadcasting `u * k`). */
  function Scale(u: Vec3, k: real): Vec3 {
    Vec3(u.x * k, u.y * k, u.z * k)
  }

  /** `sum(u ** 2)`: the squared Euclidean length. */
  function NormSq(u: Vec3): real {
    u.x * u.x + u.y * u.y + u.z * u.z
  }
}
