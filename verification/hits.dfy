/** RaycastHit.h: a hit records the object hit, the distance travelled, the location and
    the surface normal there. The default-constructed hit, whose distance is +infinity,
    is the absent value None. */
module Hits {
  import opened Vectors
  import opened SceneObjects

  datatype Option<T> = None | Some(value: T)

  datatype RaycastHit = RaycastHit(objectHit: Material, distance: real, location: Vector3, normal: Vector3)

  /** `trial.getDistance() < current.getDistance()` with a miss standing for +infinity:
      a hit beats a miss, and nothing beats a hit at the same or a shorter distance. */
  predicate Closer(trial: Option<RaycastHit>, current: Option<RaycastHit>)
  {
    trial.Some? && (current.None? || trial.value.distance < current.value.distance)
  }

  /** `hit.getDistance() > d` with a miss standing for +infinity. */
  predicate FartherThan(hit: Option<RaycastHit>, d: real)
  {
    hit.None? || hit.value.distance > d
  }

  /** The comparisons agree with the ordering of the extended reals. */
  lemma ComparisonsWithInfinity(h: RaycastHit, d: real)
    ensures Closer(Some(h), None) && !Closer(None, Some(h)) && !Closer(None, None)
    ensures FartherThan(None, d)
    ensures FartherThan(Some(h), d) <==> h.distance > d
    ensures !Closer(Some(h), Some(h))
  {
  }
}
