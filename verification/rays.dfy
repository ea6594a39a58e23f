/** Ray.h: an origin and a direction; the getters are the datatype's fields. */
module Rays {
  import opened Vectors

  datatype Ray = Ray(origin: Vector3, direction: Vector3)

  /** The point reached after travelling parameter `t` along the ray. */
  function EvaluateAt(ray: Ray, t: real): Vector3
  {
    Add(ray.origin, Scale(ray.direction, t))
  }

  /** evaluateAt is the affine map t |-> origin + t * direction. */
  lemma EvaluateAtAffine(ray: Ray, s: real, t: real)
    ensures EvaluateAt(ray, 0.0) == ray.origin
    ensures EvaluateAt(ray, t) == Vector3(ray.origin.x + t * ray.direction.x,
                                          ray.origin.y + t * ray.direction.y,
                                          ray.origin.z + t * ray.direction.z)
    ensures EvaluateAt(ray, s + t) == Add(EvaluateAt(ray, s), Scale(ray.direction, t))
  {
  }

  /** The displacement from the origin is the direction scaled by the parameter. */
  lemma EvaluateAtDisplacement(ray: Ray, t: real)
    ensures Subtract(EvaluateAt(ray, t), ray.origin) == Scale(ray.direction, t)
  {
  }
}
