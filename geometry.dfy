/** Real-valued stand-ins for the glm vector type and the ray, sphere and
    interpolation primitives the sketch mesh consumes. Float rounding is not
    modelled; normalisation and orientation are kept as symbolic values. */
module Geometry {

  /** A glm::vec3. */
  datatype Vec3 = Vec3(x: real, y: real, z: real)

  function Add(a: Vec3, b: Vec3): Vec3 {
    Vec3(a.x + b.x, a.y + b.y, a.z + b.z)
  }

  function Sub(a: Vec3, b: Vec3): Vec3 {
    Vec3(a.x - b.x, a.y - b.y, a.z - b.z)
  }

  function Scale(k: real, a: Vec3): Vec3 {
    Vec3(k * a.x, k * a.y, k * a.z)
  }

  /** a / k, component by component. */
  function Div(a: Vec3, k: real): Vec3
    requires k != 0.0
  {
    Vec3(a.x / k, a.y / k, a.z / k)
  }

  /** glm::vec3 (s): the same value in all three components. */
  function Splat(s: real): Vec3 {
    Vec3(s, s, s)
  }

  /** A PrimRay: origin and direction. */
  datatype Ray = Ray(origin: Vec3, direction: Vec3) {
    /** ray.pointAt (t) */
    function PointAt(t: real): Vec3 {
      Add(origin, Scale(t, direction))
    }
  }

  /** A PrimSphere: centre and radius. */
  datatype Sphere = Sphere(center: Vec3, radius: real)

  /** glm::normalize (v), kept symbolic: the model never computes a square root. */
  datatype Normal = Normalize(v: Vec3)

  /** glm::orientation (direction, up), kept symbolic. */
  datatype Rotation = Orientation(direction: Vec3, up: Vec3)

  function Min(a: real, b: real): real {
    if a <= b then a else b
  }

  function Max(a: real, b: real): real {
    if a <= b then b else a
  }

  /** Util::lerp (t, a, b): a at t = 0, b at t = 1. */
  function Lerp(t: real, a: real, b: real): real {
    a + t * (b - a)
  }

  /** The product of two non-negative reals is non-negative. */
  lemma MulNonNegative(x: real, y: real)
    requires 0.0 <= x && 0.0 <= y
    ensures 0.0 <= x * y
  {
  }

  /** Interpolating with a weight in [0, 1] stays between the two ends. */
  lemma LerpBetween(t: real, a: real, b: real)
    requires 0.0 <= t <= 1.0
    ensures Min(a, b) <= Lerp(t, a, b) <= Max(a, b)
  {
    if a <= b {
      MulNonNegative(t, b - a);
      MulNonNegative(1.0 - t, b - a);
      assert (1.0 - t) * (b - a) == (b - a) - t * (b - a);
    } else {
      MulNonNegative(t, a - b);
      MulNonNegative(1.0 - t, a - b);
      assert (1.0 - t) * (a - b) == (a - b) - t * (a - b);
      assert t * (b - a) == -(t * (a - b));
    }
  }
}
