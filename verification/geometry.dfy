/** Planar vectors and the floating-point numerics the model treats as inputs. */
module Geometry {

  /** A point or displacement in world coordinates. */
  datatype Vec = Vec(x: real, y: real)

  function Plus(a: Vec, b: Vec): Vec {
    Vec(a.x + b.x, a.y + b.y)
  }

  function Minus(a: Vec, b: Vec): Vec {
    Vec(a.x - b.x, a.y - b.y)
  }

  /**
   * The transcendental functions of the simulator, supplied from outside:
   *   metric(p, q)   the Euclidean distance sqrt(dx^2 + dy^2),
   *   polar(s, h)    the velocity (s cos h, s sin h),
   *   bearing(d)     atan2(d.y, d.x).
   */
  datatype Numerics = Numerics(
    metric: (Vec, Vec) -> real,
    polar: (real, real) -> Vec,
    bearing: Vec -> real)

  /** The closed box [0, width] x [0, height] of the world (both ends included). */
  predicate InBounds(p: Vec, width: real, height: real) {
    0.0 <= p.x <= width && 0.0 <= p.y <= height
  }
}
