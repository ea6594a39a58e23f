/** The two kinds of scene object, Sphere.h and Plane.h, as one tagged datatype: each
    case carries its geometry and the material fields it inherits from SceneObject.h.
    `intersectionWith` and `getNormalAt` dispatch on the case. */
module Primitives {
  import opened Numerics
  import opened Vectors
  import opened Colors
  import opened Rays
  import opened SceneObjects
  import opened Hits
  import opened Planes
  import opened Spheres

  datatype Primitive =
    | Sphere(position: Vector3, radius: real, material: Material)
    | Plane(point: Vector3, normal: Vector3, material: Material)

  /** The material a sphere or plane is built with: the given colour and coefficients,
      the transmittance as a grey level, and the base refractive index 1.5. */
  function ObjectMaterial(colour: ColorRGB, kD: real, kS: real, alpha: real, reflectivity: real,
                          transmittance: real): Material
  {
    DefaultMaterial.(colour := colour, kD := kD, kS := kS, alpha := alpha,
                     reflectivity := reflectivity, transmittance := Gray(transmittance))
  }

  /** Sphere(position, radius, colour): the given geometry and colour with the sphere
      defaults kD 0.8, kS 1.2, alpha 10 and reflectivity 0.3; opaque, index 1.5. */
  function NewSphere(position: Vector3, radius: real, colour: ColorRGB): (p: Primitive)
    ensures p.Sphere? && p.position == position && p.radius == radius
    ensures p.material.colour == colour
    ensures p.material.kD == 0.8 && p.material.kS == 1.2 && p.material.alpha == 10.0
    ensures p.material.reflectivity == 0.3
    ensures !p.material.IsTransmissive() && p.material.refractiveIndex == 1.5
  {
    Sphere(position, radius, ObjectMaterial(colour, SPHERE_KD, SPHERE_KS, SPHERE_ALPHA, SPHERE_REFLECTIVITY, 0.0))
  }

  /** The full sphere constructor: the given geometry, colour and coefficients, and a
      grey transmittance, so the sphere is transmissive exactly when that is not 0. */
  function NewSphereWith(position: Vector3, radius: real, colour: ColorRGB, kD: real, kS: real,
                         alpha: real, reflectivity: real, transmittance: real): (p: Primitive)
    ensures p.Sphere? && p.position == position && p.radius == radius
    ensures p.material.colour == colour
    ensures p.material.kD == kD && p.material.kS == kS && p.material.alpha == alpha
    ensures p.material.reflectivity == reflectivity
    ensures p.material.transmittance == Rgb(transmittance, transmittance, transmittance)
    ensures p.material.IsTransmissive() <==> transmittance != 0.0
    ensures p.material.refractiveIndex == 1.5
  {
    Sphere(position, radius, ObjectMaterial(colour, kD, kS, alpha, reflectivity, transmittance))
  }

  /** Plane(point, normal, colour): the given geometry and colour with the plane
      defaults kD 0.6, kS 0, alpha 0 and reflectivity 0.1; opaque, index 1.5. */
  function NewPlane(point: Vector3, normal: Vector3, colour: ColorRGB): (p: Primitive)
    ensures p.Plane? && p.point == point && p.normal == normal
    ensures p.material.colour == colour
    ensures p.material.kD == 0.6 && p.material.kS == 0.0 && p.material.alpha == 0.0
    ensures p.material.reflectivity == 0.1
    ensures !p.material.IsTransmissive() && p.material.refractiveIndex == 1.5
  {
    Plane(point, normal, ObjectMaterial(colour, PLANE_KD, PLANE_KS, PLANE_ALPHA, PLANE_REFLECTIVITY, 0.0))
  }

  /** The full plane constructor: the given geometry, colour and coefficients. It passes
      no transmittance, so the plane stays opaque. */
  function NewPlaneWith(point: Vector3, normal: Vector3, colour: ColorRGB, kD: real, kS: real,
                        alpha: real, reflectivity: real): (p: Primitive)
    ensures p.Plane? && p.point == point && p.normal == normal
    ensures p.material.colour == colour
    ensures p.material.kD == kD && p.material.kS == kS && p.material.alpha == alpha
    ensures p.material.reflectivity == reflectivity
    ensures !p.material.IsTransmissive() && p.material.refractiveIndex == 1.5
  {
    Plane(point, normal, ObjectMaterial(colour, kD, kS, alpha, reflectivity, 0.0))
  }

  /** The short constructors are the full ones applied to the defaults: a default sphere
      is an opaque one with kD 0.8, kS 1.2, alpha 10, reflectivity 0.3, a default plane
      one with kD 0.6, kS 0, alpha 0, reflectivity 0.1. */
  lemma DefaultsAreSpecialCases(position: Vector3, radius: real, point: Vector3, normal: Vector3, colour: ColorRGB)
    ensures NewSphere(position, radius, colour) == NewSphereWith(position, radius, colour, 0.8, 1.2, 10.0, 0.3, 0.0)
    ensures NewPlane(point, normal, colour) == NewPlaneWith(point, normal, colour, 0.6, 0.0, 0.0, 0.1)
  {
  }

  /** intersectionWith: every hit is in front of (or, for a plane, at) the origin, on the
      object's surface, records the object's material, and carries its normal there. */
  function Intersect(m: CMath, obj: Primitive, ray: Ray): (h: Option<RaycastHit>)
    requires m.Valid()
    ensures h.Some? ==> && h.value.distance >= 0.0
                        && h.value.location == EvaluateAt(ray, h.value.distance)
                        && h.value.objectHit == obj.material
                        && h.value.normal == NormalAt(m, obj, h.value.location)
  {
    match obj
    case Sphere(position, radius, material) => SphereIntersection(m, position, radius, material, ray)
    case Plane(point, normal, material) => PlaneIntersection(point, normal, material, ray)
  }

  /** getNormalAt. */
  function NormalAt(m: CMath, obj: Primitive, p: Vector3): Vector3
    requires m.Valid()
  {
    match obj
    case Sphere(position, _, _) => SphereNormalAt(m, position, p)
    case Plane(_, normal, _) => PlaneNormalAt(normal, p)
  }

  /** Every hit lies on the object's surface. */
  lemma HitOnSurface(m: CMath, obj: Primitive, ray: Ray)
    requires m.Valid() && Intersect(m, obj, ray).Some?
    ensures var loc := Intersect(m, obj, ray).value.location;
            match obj
            case Sphere(position, radius, _) =>
              Dot(Subtract(loc, position), Subtract(loc, position)) == radius * radius
            case Plane(point, normal, _) => OnPlane(point, normal, loc)
  {
    if obj.Sphere? {
      HitOnSphere(m, obj.position, obj.radius, obj.material, ray);
    }
  }
}
