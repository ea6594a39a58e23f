/** Plane.h: the infinite plane through `point` with normal `normal`. */
module Planes {
  import opened Vectors
  import opened Rays
  import opened SceneObjects
  import opened Hits

  /** Plane defaults: kD 0.6, kS 0, alpha 0, reflectivity 0.1. */
  const PLANE_KD: real := 0.6
  const PLANE_KS: real := 0.0
  const PLANE_ALPHA: real := 0.0
  const PLANE_REFLECTIVITY: real := 0.1

  /** `p` lies on the plane: its offset from `point` is orthogonal to the normal. */
  predicate OnPlane(point: Vector3, normal: Vector3, p: Vector3)
  {
    Dot(Subtract(p, point), normal) == 0.0
  }

  /** The signed distance of the crossing: (Q - O).N / D.N. */
  function CrossingParameter(point: Vector3, normal: Vector3, ray: Ray): real
    requires Dot(ray.direction, normal) != 0.0
  {
    Dot(Subtract(point, ray.origin), normal) / Dot(ray.direction, normal)
  }

  /** intersectionWith: a ray parallel to the plane misses; otherwise it hits at the
      crossing parameter unless that lies behind the origin (zero is accepted). The
      normal returned is the stored one, whichever side the ray comes from. */
  function PlaneIntersection(point: Vector3, normal: Vector3, material: Material, ray: Ray)
    : (h: Option<RaycastHit>)
    ensures Dot(ray.direction, normal) == 0.0 ==> h.None?
    ensures Dot(ray.direction, normal) != 0.0 ==>
              (h.Some? <==> CrossingParameter(point, normal, ray) >= 0.0)
    ensures h.Some? ==> && h.value.distance >= 0.0
                        && h.value.location == EvaluateAt(ray, h.value.distance)
                        && OnPlane(point, normal, h.value.location)
                        && h.value.normal == normal
                        && h.value.objectHit == material
  {
    var scaling := Dot(ray.direction, normal);
    if scaling == 0.0 then None
    else
      var s := Dot(Subtract(point, ray.origin), normal) / scaling;
      if s < 0.0 then None
      else
        CrossingOnPlane(point, normal, ray, s);
        Some(RaycastHit(material, s, EvaluateAt(ray, s), normal))
  }

  /** How far EvaluateAt(ray, t) is from the plane, measured along the normal. */
  lemma OffsetAlongNormal(point: Vector3, normal: Vector3, ray: Ray, t: real)
    ensures Dot(Subtract(EvaluateAt(ray, t), point), normal)
            == t * Dot(ray.direction, normal) - Dot(Subtract(point, ray.origin), normal)
  {
  }

  /** A non-parallel ray's line meets the plane at exactly one parameter, the crossing one. */
  lemma CrossingOnPlane(point: Vector3, normal: Vector3, ray: Ray, t: real)
    requires Dot(ray.direction, normal) != 0.0
    ensures OnPlane(point, normal, EvaluateAt(ray, t)) <==> t == CrossingParameter(point, normal, ray)
  {
    var sc := Dot(ray.direction, normal);
    var k := Dot(Subtract(point, ray.origin), normal);
    OffsetAlongNormal(point, normal, ray, t);
    if t == k / sc {
      assert t * sc == k;
    }
  }

  /** A miss by a non-parallel ray means the plane is crossed only behind the origin. */
  lemma MissMeansBehind(point: Vector3, normal: Vector3, material: Material, ray: Ray, t: real)
    requires Dot(ray.direction, normal) != 0.0
    requires PlaneIntersection(point, normal, material, ray).None?
    requires OnPlane(point, normal, EvaluateAt(ray, t))
    ensures t < 0.0
  {
    CrossingOnPlane(point, normal, ray, t);
  }

  /** A ray lying within the plane is parallel to it and therefore misses. */
  lemma RayInPlaneMisses(point: Vector3, normal: Vector3, material: Material, ray: Ray)
    requires OnPlane(point, normal, ray.origin) && Dot(ray.direction, normal) == 0.0
    ensures forall t :: OnPlane(point, normal, EvaluateAt(ray, t))
    ensures PlaneIntersection(point, normal, material, ray).None?
  {
    forall t ensures OnPlane(point, normal, EvaluateAt(ray, t)) {
      OffsetAlongNormal(point, normal, ray, t);
    }
  }

  /** getNormalAt: the stored normal at every position. */
  function PlaneNormalAt(normal: Vector3, p: Vector3): Vector3
  {
    normal
  }
}
