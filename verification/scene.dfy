/** Scene.h: the objects and point lights of a scene and its ambient light. The lists
    grow by appending; the nearest-hit scan walks the objects in order. */
module Scenes {
  import opened Numerics
  import opened Colors
  import opened Rays
  import opened Hits
  import opened PointLights
  import opened Primitives

  /** The result of scanning `objects` in order, keeping a trial hit only when it is
      strictly closer than the best so far (a miss counts as +infinity). */
  function ClosestHit(m: CMath, objects: seq<Primitive>, ray: Ray): Option<RaycastHit>
    requires m.Valid()
  {
    if objects == [] then None
    else
      var best := ClosestHit(m, objects[..|objects| - 1], ray);
      var trial := Intersect(m, objects[|objects| - 1], ray);
      if Closer(trial, best) then trial else best
  }

  /** The scan misses exactly when every object misses (in particular when there are none). */
  lemma {:induction false} MissIffAllMiss(m: CMath, objects: seq<Primitive>, ray: Ray)
    requires m.Valid()
    ensures ClosestHit(m, objects, ray).None? <==>
            forall i :: 0 <= i < |objects| ==> Intersect(m, objects[i], ray).None?
  {
    if objects != [] {
      var prefix := objects[..|objects| - 1];
      MissIffAllMiss(m, prefix, ray);
      assert forall i :: 0 <= i < |prefix| ==> prefix[i] == objects[i];
    }
  }

  /** The result is no farther than any object's own hit. */
  lemma {:induction false} ClosestIsMinimal(m: CMath, objects: seq<Primitive>, ray: Ray, i: int)
    requires m.Valid() && 0 <= i < |objects| && Intersect(m, objects[i], ray).Some?
    ensures ClosestHit(m, objects, ray).Some?
    ensures ClosestHit(m, objects, ray).value.distance <= Intersect(m, objects[i], ray).value.distance
  {
    var prefix := objects[..|objects| - 1];
    if i < |objects| - 1 {
      assert prefix[i] == objects[i];
      ClosestIsMinimal(m, prefix, ray, i);
    }
  }

  /** The result, when there is one, is the hit of some object, and every object before
      that one misses or is strictly farther: ties go to the earliest object. */
  lemma {:induction false} ClosestIsFirstMinimum(m: CMath, objects: seq<Primitive>, ray: Ray)
    requires m.Valid() && ClosestHit(m, objects, ray).Some?
    ensures exists k :: && 0 <= k < |objects|
                        && Intersect(m, objects[k], ray) == ClosestHit(m, objects, ray)
                        && forall j :: 0 <= j < k ==>
                             FartherThan(Intersect(m, objects[j], ray), ClosestHit(m, objects, ray).value.distance)
  {
    var n := |objects|;
    var prefix := objects[..n - 1];
    var best := ClosestHit(m, prefix, ray);
    var trial := Intersect(m, objects[n - 1], ray);
    var h := ClosestHit(m, objects, ray);
    assert forall j :: 0 <= j < n - 1 ==> prefix[j] == objects[j];
    if Closer(trial, best) {
      forall j | 0 <= j < n - 1
        ensures FartherThan(Intersect(m, objects[j], ray), h.value.distance)
      {
        if Intersect(m, prefix[j], ray).Some? {
          ClosestIsMinimal(m, prefix, ray, j);
        }
      }
      assert Intersect(m, objects[n - 1], ray) == h;
    } else {
      ClosestIsFirstMinimum(m, prefix, ray);
      var k :| && 0 <= k < |prefix|
               && Intersect(m, prefix[k], ray) == best
               && forall j :: 0 <= j < k ==> FartherThan(Intersect(m, prefix[j], ray), best.value.distance);
      assert Intersect(m, objects[k], ray) == h;
    }
  }

  class Scene {
    var objects: seq<Primitive>
    var pointLights: seq<PointLight>
    var ambientLight: ColorRGB

    /** An empty scene under white ambient light. */
    constructor ()
      ensures objects == [] && pointLights == [] && ambientLight == Gray(1.0)
    {
      objects := [];
      pointLights := [];
      ambientLight := Gray(1.0);
    }

    function GetAmbientLighting(): ColorRGB
      reads this
    {
      ambientLight
    }

    /** getPointLights returns a copy of the list, which is a value here. */
    function GetPointLights(): seq<PointLight>
      reads this
    {
      pointLights
    }

    /** getPointLight: the front of the list, which must not be empty. */
    function GetPointLight(): PointLight
      reads this
      requires pointLights != []
    {
      pointLights[0]
    }

    method AddObject(obj: Primitive)
      modifies this
      ensures objects == old(objects) + [obj]
      ensures pointLights == old(pointLights) && ambientLight == old(ambientLight)
    {
      objects := objects + [obj];
    }

    /** Appending keeps the first light first: GetPointLight is the first light ever added. */
    method AddPointLight(light: PointLight)
      modifies this
      ensures GetPointLights() == old(GetPointLights()) + [light]
      ensures GetPointLight() == if old(pointLights) == [] then light else old(GetPointLight())
      ensures objects == old(objects) && ambientLight == old(ambientLight)
    {
      pointLights := pointLights + [light];
    }

    method SetAmbientLight(c: ColorRGB)
      modifies this
      ensures GetAmbientLighting() == c
      ensures objects == old(objects) && pointLights == old(pointLights)
    {
      ambientLight := c;
    }

    /** findClosestIntersection: the linear scan with a strict comparison. */
    method FindClosestIntersection(m: CMath, ray: Ray) returns (closest: Option<RaycastHit>)
      requires m.Valid()
      ensures closest == ClosestHit(m, objects, ray)
    {
      closest := None;
      var i := 0;
      while i < |objects|
        invariant 0 <= i <= |objects|
        invariant closest == ClosestHit(m, objects[..i], ray)
      {
        var trial := Intersect(m, objects[i], ray);
        assert objects[..i + 1][..i] == objects[..i];
        if Closer(trial, closest) {
          closest := trial;
        }
        i := i + 1;
      }
      assert objects[..i] == objects;
    }
  }
}
