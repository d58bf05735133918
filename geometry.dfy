/**
 * Vectors of the scene, and the floating-point primitives the navigator uses.
 *
 * The scene works in glm's single-precision 3-vectors; here a component is a
 * `real`. The square root and trigonometry behind `glm::normalize`,
 * `glm::distance` and `atan2` are not modelled: they are supplied to every
 * update as a `Kinematics` value, so every property proved of the navigator
 * holds for whatever those primitives return.
 */
module Geometry {

  datatype Vec3 = Vec3(x: real, y: real, z: real)

  function Add(a: Vec3, b: Vec3): Vec3 {
    Vec3(a.x + b.x, a.y + b.y, a.z + b.z)
  }

  function Sub(a: Vec3, b: Vec3): Vec3 {
    Vec3(a.x - b.x, a.y - b.y, a.z - b.z)
  }

  function Scale(a: Vec3, k: real): Vec3 {
    Vec3(a.x * k, a.y * k, a.z * k)
  }

  /** The uninterpreted numeric primitives of one update: `glm::normalize`,
      `glm::distance` and `atan2`. */
  datatype Kinematics = Kinematics(
    normalize: Vec3 -> Vec3,
    distance: (Vec3, Vec3) -> real,
    atan2: (real, real) -> real)

  const Zero: Vec3 := Vec3(0.0, 0.0, 0.0)

  /** What IEEE normalisation does to a non-zero vector with a zero y
      component: the y component of the unit vector is zero again. (The zero
      vector itself normalises to NaNs.) */
  ghost predicate KeepsGroundPlane(k: Kinematics) {
    forall v: Vec3 :: v.y == 0.0 && v != Zero ==> k.normalize(v).y == 0.0
  }

  /** A positive distance separates two distinct points. */
  ghost predicate DistanceSeparates(k: Kinematics) {
    forall a: Vec3, b: Vec3 :: k.distance(a, b) > 0.0 ==> a != b
  }
}
