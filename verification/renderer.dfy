/** Renderer.h: Whitted-style shading. `illuminate` adds the ambient term and, for each
    point light in turn, a Phong diffuse and specular term when a shadow ray towards the
    light reaches it; `trace` finds the nearest hit and blends in the colour seen along
    the mirror direction while bounces are left. */
module Rendering {
  import opened Numerics
  import opened Vectors
  import opened Colors
  import opened Rays
  import opened SceneObjects
  import opened Hits
  import opened PointLights
  import opened Primitives
  import opened Scenes

  /** The bias that lifts reflected and shadow rays off the surface. */
  const EPSILON: real := 0.0001

  /** The colour of a ray that hits nothing. */
  const BACKGROUND: ColorRGB := Gray(0.001)

  /** The tone-mapping constants: brightness a, contrast b, and 1 / gamma. */
  const TONE_A: real := 2.0
  const TONE_B: real := 1.3
  const INV_GAMMA: real := 1.0 / 2.2

  /** The diffuse and specular contributions of one light. */
  datatype Phong = Phong(diffuse: ColorRGB, specular: ColorRGB)

  /** The vector from the shaded point to the light. */
  function ToLight(P: Vector3, light: PointLight): Vector3
  {
    Subtract(light.position, P)
  }

  /** The shadow ray: from P lifted by EPSILON along N, towards the light. */
  function ShadowRay(m: CMath, P: Vector3, N: Vector3, light: PointLight): Ray
    requires m.Valid()
  {
    Ray(Add(P, Scale(N, EPSILON)), Normalised(m, ToLight(P, light)))
  }

  /** A light shines on P when it is away from P and the shadow ray's nearest hit is
      strictly farther than the light, a miss counting as +infinity. */
  predicate Lit(m: CMath, objects: seq<Primitive>, P: Vector3, N: Vector3, light: PointLight)
    requires m.Valid()
  {
    var distance := Magnitude(m, ToLight(P, light));
    distance != 0.0 && FartherThan(ClosestHit(m, objects, ShadowRay(m, P, N, light)), distance)
  }

  /** The diffuse term C_diff (x) I k_d max(0, N.L). */
  function Diffuse(material: Material, I: ColorRGB, normal: Vector3, L: Vector3): ColorRGB
  {
    material.colour.Hadamard(I.Scale(material.kD * Max(0.0, Dot(normal, L))))
  }

  /** The specular term C_spec (x) I k_s max(0, R.V)^alpha. */
  function Specular(m: CMath, material: Material, lightColour: ColorRGB, I: ColorRGB, R: Vector3, V: Vector3): ColorRGB
  {
    lightColour.Hadamard(I.Scale(material.kS * m.pow(Max(0.0, Dot(R, V)), material.alpha)))
  }

  /** One light's Phong terms at P, with unit normal `normal` and unit view vector V. */
  function LightTerms(m: CMath, objects: seq<Primitive>, material: Material, P: Vector3, N: Vector3,
                      normal: Vector3, V: Vector3, light: PointLight): (t: Phong)
    requires m.Valid()
    ensures !Lit(m, objects, P, N, light) ==> t == Phong(Gray(0.0), Gray(0.0))
  {
    if Lit(m, objects, P, N, light) then
      var I := IlluminationAt(light, Magnitude(m, ToLight(P, light)));
      var L := Normalised(m, ToLight(P, light));
      var R := Normalised(m, ReflectIn(L, normal));
      Phong(Diffuse(material, I, normal, L), Specular(m, material, light.colour, I, R, V))
    else
      Phong(Gray(0.0), Gray(0.0))
  }

  /** One pass of the light loop: add the diffuse, then the specular term. */
  function Step(acc: ColorRGB, t: Phong): ColorRGB
  {
    acc.Add(t.diffuse).Add(t.specular)
  }

  /** The lights' terms, in list order. */
  function Terms(m: CMath, objects: seq<Primitive>, material: Material, P: Vector3, N: Vector3,
                 normal: Vector3, V: Vector3, lights: seq<PointLight>): seq<Phong>
    requires m.Valid()
  {
    seq(|lights|, i requires 0 <= i < |lights| => LightTerms(m, objects, material, P, N, normal, V, lights[i]))
  }

  /** The light loop as a fold over the terms, front first. */
  function Sum(terms: seq<Phong>, acc: ColorRGB): ColorRGB
  {
    if terms == [] then acc else Sum(terms[1..], Step(acc, terms[0]))
  }

  /** The ambient term C_diff (x) I_a. */
  function Ambient(material: Material, ambientLight: ColorRGB): ColorRGB
  {
    material.colour.Hadamard(ambientLight)
  }

  /** What illuminate returns at P with normal N, seen from O. */
  function Illumination(m: CMath, objects: seq<Primitive>, lights: seq<PointLight>, ambientLight: ColorRGB,
                        material: Material, P: Vector3, N: Vector3, O: Vector3): ColorRGB
    requires m.Valid()
  {
    Sum(Terms(m, objects, material, P, N, Normalised(m, N), Normalised(m, Subtract(O, P)), lights),
        Gray(0.0).Add(Ambient(material, ambientLight)))
  }

  /** The fold adds its starting value to the sum of the terms taken from black. */
  lemma {:induction false} SumFrom(terms: seq<Phong>, acc: ColorRGB)
    ensures Sum(terms, acc) == acc.Add(Sum(terms, Gray(0.0)))
  {
    if terms != [] {
      SumFrom(terms[1..], Step(acc, terms[0]));
      SumFrom(terms[1..], Step(Gray(0.0), terms[0]));
    }
  }

  /** Terms are taken in list order, each exactly once: a term appended last is added last. */
  lemma {:induction false} SumAppend(terms: seq<Phong>, t: Phong, acc: ColorRGB)
    ensures Sum(terms + [t], acc) == Step(Sum(terms, acc), t)
  {
    if terms == [] {
      assert terms + [t] == [t];
    } else {
      assert (terms + [t])[1..] == terms[1..] + [t];
      SumAppend(terms[1..], t, Step(acc, terms[0]));
    }
  }

  /** Terms that are all black leave the running colour as it is. */
  lemma {:induction false} SumOfDark(terms: seq<Phong>, acc: ColorRGB)
    requires forall i :: 0 <= i < |terms| ==> terms[i] == Phong(Gray(0.0), Gray(0.0))
    ensures Sum(terms, acc) == acc
  {
    if terms != [] {
      DarkStep(acc);
      SumOfDark(terms[1..], acc);
    }
  }

  /** Black terms added to a colour leave it as it is. */
  lemma DarkStep(acc: ColorRGB)
    ensures Step(acc, Phong(Gray(0.0), Gray(0.0))) == acc
  {
  }

  /** Lights are visited in list order, each exactly once: the terms of two lists of
      lights one after the other are the terms of the joined list. */
  lemma TermsOfJoin(m: CMath, objects: seq<Primitive>, material: Material, P: Vector3, N: Vector3,
                    normal: Vector3, V: Vector3, lights: seq<PointLight>, more: seq<PointLight>)
    requires m.Valid()
    ensures Terms(m, objects, material, P, N, normal, V, lights + more)
            == Terms(m, objects, material, P, N, normal, V, lights) + Terms(m, objects, material, P, N, normal, V, more)
  {
  }

  /** The first light's term comes first, followed by the terms of the rest. */
  lemma TermsFront(m: CMath, objects: seq<Primitive>, material: Material, P: Vector3, N: Vector3,
                   normal: Vector3, V: Vector3, lights: seq<PointLight>)
    requires m.Valid() && lights != []
    ensures var terms := Terms(m, objects, material, P, N, normal, V, lights);
            && terms[0] == LightTerms(m, objects, material, P, N, normal, V, lights[0])
            && terms[1..] == Terms(m, objects, material, P, N, normal, V, lights[1..])
  {
    assert lights == [lights[0]] + lights[1..];
    TermsOfJoin(m, objects, material, P, N, normal, V, [lights[0]], lights[1..]);
  }

  /** illuminate always includes the ambient term: the result is C_diff (x) I_a plus the
      lights' contributions. */
  lemma AmbientAlwaysIncluded(m: CMath, objects: seq<Primitive>, lights: seq<PointLight>, ambientLight: ColorRGB,
                              material: Material, P: Vector3, N: Vector3, O: Vector3)
    requires m.Valid()
    ensures Illumination(m, objects, lights, ambientLight, material, P, N, O)
            == Ambient(material, ambientLight).Add(
                 Sum(Terms(m, objects, material, P, N, Normalised(m, N), Normalised(m, Subtract(O, P)), lights),
                     Gray(0.0)))
  {
    var start := Gray(0.0).Add(Ambient(material, ambientLight));
    SumFrom(Terms(m, objects, material, P, N, Normalised(m, N), Normalised(m, Subtract(O, P)), lights), start);
    assert start == Ambient(material, ambientLight);
  }

  /** Lights that do not shine on P leave the running colour as it is, whatever the
      viewing vectors. */
  lemma {:induction false} DarkLightsAddNothing(m: CMath, objects: seq<Primitive>, material: Material, P: Vector3,
                                                N: Vector3, normal: Vector3, V: Vector3, lights: seq<PointLight>,
                                                acc: ColorRGB)
    requires m.Valid()
    requires forall i :: 0 <= i < |lights| ==> !Lit(m, objects, P, N, lights[i])
    ensures Sum(Terms(m, objects, material, P, N, normal, V, lights), acc) == acc
  {
    if lights != [] {
      DarkFront(m, objects, material, P, N, normal, V, lights, acc);
      assert forall i :: 0 <= i < |lights[1..]| ==> !Lit(m, objects, P, N, lights[1..][i]) by {
        forall i | 0 <= i < |lights[1..]| ensures !Lit(m, objects, P, N, lights[1..][i]) {
          assert lights[1..][i] == lights[i + 1];
        }
      }
      DarkLightsAddNothing(m, objects, material, P, N, normal, V, lights[1..], acc);
    }
  }

  /** A first light that does not shine on P adds nothing before the rest are added. */
  lemma DarkFront(m: CMath, objects: seq<Primitive>, material: Material, P: Vector3, N: Vector3,
                  normal: Vector3, V: Vector3, lights: seq<PointLight>, acc: ColorRGB)
    requires m.Valid() && lights != [] && !Lit(m, objects, P, N, lights[0])
    ensures Sum(Terms(m, objects, material, P, N, normal, V, lights), acc)
            == Sum(Terms(m, objects, material, P, N, normal, V, lights[1..]), acc)
  {
    TermsFront(m, objects, material, P, N, normal, V, lights);
    DarkStep(acc);
  }

  /** When no light shines on P, illuminate returns the ambient term alone. */
  lemma NoLightIsAmbient(m: CMath, objects: seq<Primitive>, lights: seq<PointLight>, ambientLight: ColorRGB,
                         material: Material, P: Vector3, N: Vector3, O: Vector3)
    requires m.Valid()
    requires forall i :: 0 <= i < |lights| ==> !Lit(m, objects, P, N, lights[i])
    ensures Illumination(m, objects, lights, ambientLight, material, P, N, O) == Ambient(material, ambientLight)
  {
    var start := Gray(0.0).Add(Ambient(material, ambientLight));
    DarkLightsAddNothing(m, objects, material, P, N, Normalised(m, N), Normalised(m, Subtract(O, P)), lights, start);
    assert start == Ambient(material, ambientLight);
  }

  /** The direction trace reflects into: the incoming direction mirrored in the surface,
      both normalised first, then normalised again and reversed. */
  function ReflectedDirection(m: CMath, d: Vector3, N: Vector3): Vector3
    requires m.Valid()
  {
    Scale(Normalised(m, ReflectIn(Normalised(m, d), Normalised(m, N))), -1.0)
  }

  /** The reflected ray starts at P lifted by EPSILON along N. */
  function ReflectedRay(m: CMath, ray: Ray, P: Vector3, N: Vector3): Ray
    requires m.Valid()
  {
    Ray(Add(P, Scale(N, EPSILON)), ReflectedDirection(m, ray.direction, N))
  }

  /** The law of reflection: for unit d and N the reflected direction is d - 2(d.N)N, a
      unit vector whose component along N is that of d reversed. */
  lemma MirrorReflection(m: CMath, d: Vector3, N: Vector3)
    requires m.Valid() && Dot(d, d) == 1.0 && Dot(N, N) == 1.0
    ensures ReflectedDirection(m, d, N) == Subtract(d, Scale(N, 2.0 * Dot(d, N)))
    ensures Dot(ReflectedDirection(m, d, N), ReflectedDirection(m, d, N)) == 1.0
    ensures Dot(ReflectedDirection(m, d, N), N) == -Dot(d, N)
  {
    NormalisedUnit(m, d);
    NormalisedUnit(m, N);
    var r := ReflectIn(d, N);
    ReflectInPreservesLength(d, N);
    ReflectInKeepsNormalComponent(d, N);
    NormalisedUnit(m, r);
    var R := ReflectedDirection(m, d, N);
    assert R == Scale(r, -1.0);
  }

  /** The colour trace returns for `ray` with `bouncesLeft` reflections still allowed. */
  function Traced(m: CMath, objects: seq<Primitive>, lights: seq<PointLight>, ambientLight: ColorRGB,
                  ray: Ray, bouncesLeft: nat): ColorRGB
    requires m.Valid()
    decreases bouncesLeft
  {
    var hit := ClosestHit(m, objects, ray);
    if hit.None? then BACKGROUND
    else
      var P, N, obj := hit.value.location, hit.value.normal, hit.value.objectHit;
      var direct := Illumination(m, objects, lights, ambientLight, obj, P, N, ray.origin);
      if bouncesLeft == 0 || obj.reflectivity == 0.0 then direct
      else
        var reflected := Traced(m, objects, lights, ambientLight, ReflectedRay(m, ray, P, N), bouncesLeft - 1);
        Blend(direct, reflected, obj.reflectivity)
  }

  /** The mix trace returns at a reflective surface: (1 - r) of the direct colour plus r
      of the reflected one. */
  function Blend(direct: ColorRGB, reflected: ColorRGB, r: real): ColorRGB
  {
    direct.Scale(1.0 - r).Add(reflected.Scale(r))
  }

  /** The rays trace follows, the camera ray first: each is the reflection of the one
      before at its hit point, and there are at most bouncesLeft + 1 of them. */
  function TracePath(m: CMath, objects: seq<Primitive>, ray: Ray, bouncesLeft: nat): (path: seq<Ray>)
    requires m.Valid()
    ensures 1 <= |path| <= bouncesLeft + 1 && path[0] == ray
    decreases bouncesLeft
  {
    var hit := ClosestHit(m, objects, ray);
    if hit.None? || bouncesLeft == 0 || hit.value.objectHit.reflectivity == 0.0 then [ray]
    else [ray] + TracePath(m, objects, ReflectedRay(m, ray, hit.value.location, hit.value.normal), bouncesLeft - 1)
  }

  /** Whether `next` is the ray trace follows after `ray`: `ray` hits a reflective
      surface and `next` is its mirror image there. */
  predicate Bounces(m: CMath, objects: seq<Primitive>, ray: Ray, next: Ray)
    requires m.Valid()
  {
    var hit := ClosestHit(m, objects, ray);
    && hit.Some? && hit.value.objectHit.reflectivity != 0.0
    && next == ReflectedRay(m, ray, hit.value.location, hit.value.normal)
  }

  /** Each ray of the path after the first is the reflection of the one before it, and
      the path stops at the first ray that misses or hits a non-reflective surface,
      unless the bounces run out first. */
  lemma {:induction false} PathIsReflections(m: CMath, objects: seq<Primitive>, ray: Ray, bouncesLeft: nat)
    requires m.Valid()
    ensures var path := TracePath(m, objects, ray, bouncesLeft);
            && (forall i :: 0 <= i < |path| - 1 ==> Bounces(m, objects, path[i], path[i + 1]))
            && (|path| < bouncesLeft + 1 ==>
                  var hit := ClosestHit(m, objects, path[|path| - 1]);
                  hit.None? || hit.value.objectHit.reflectivity == 0.0)
    decreases bouncesLeft
  {
    var path := TracePath(m, objects, ray, bouncesLeft);
    var hit := ClosestHit(m, objects, ray);
    if !(hit.None? || bouncesLeft == 0 || hit.value.objectHit.reflectivity == 0.0) {
      var next := ReflectedRay(m, ray, hit.value.location, hit.value.normal);
      var rest := TracePath(m, objects, next, bouncesLeft - 1);
      PathIsReflections(m, objects, next, bouncesLeft - 1);
      assert path == [ray] + rest;
      forall i | 0 <= i < |path| - 1
        ensures Bounces(m, objects, path[i], path[i + 1])
      {
        if i > 0 {
          assert path[i] == rest[i - 1] && path[i + 1] == rest[i];
        }
      }
      assert path[|path| - 1] == rest[|rest| - 1];
    }
  }

  /** trace recurses exactly along TracePath: with a path of one ray the colour is the
      background or the direct illumination, with no further trace; otherwise it is the
      direct illumination blended with the colour traced along the path's second ray,
      with one bounce fewer. */
  lemma TracedAlongPath(m: CMath, objects: seq<Primitive>, lights: seq<PointLight>, ambientLight: ColorRGB,
                        ray: Ray, bouncesLeft: nat)
    requires m.Valid()
    ensures var path := TracePath(m, objects, ray, bouncesLeft);
            var hit := ClosestHit(m, objects, ray);
            var colour := Traced(m, objects, lights, ambientLight, ray, bouncesLeft);
            && (hit.None? ==> |path| == 1 && colour == BACKGROUND)
            && (hit.Some? ==>
                  var direct := Illumination(m, objects, lights, ambientLight, hit.value.objectHit,
                                             hit.value.location, hit.value.normal, ray.origin);
                  && (|path| == 1 ==> colour == direct)
                  && (|path| > 1 ==>
                        colour == Blend(direct, Traced(m, objects, lights, ambientLight, path[1], bouncesLeft - 1),
                                        hit.value.objectHit.reflectivity)))
  {
  }

  /** A ray that every object misses gets the background colour. */
  lemma MissIsBackground(m: CMath, objects: seq<Primitive>, lights: seq<PointLight>, ambientLight: ColorRGB,
                         ray: Ray, bouncesLeft: nat)
    requires m.Valid()
    requires forall i :: 0 <= i < |objects| ==> Intersect(m, objects[i], ray).None?
    ensures Traced(m, objects, lights, ambientLight, ray, bouncesLeft) == BACKGROUND
  {
    MissIffAllMiss(m, objects, ray);
  }

  /** In a scene of non-reflective objects the bounce budget makes no difference: the
      colour is that of the first hit, illuminated directly. */
  lemma NoMirrorsNoBounces(m: CMath, objects: seq<Primitive>, lights: seq<PointLight>, ambientLight: ColorRGB,
                           ray: Ray, bouncesLeft: nat)
    requires m.Valid()
    requires forall i :: 0 <= i < |objects| ==> objects[i].material.reflectivity == 0.0
    ensures Traced(m, objects, lights, ambientLight, ray, bouncesLeft)
            == Traced(m, objects, lights, ambientLight, ray, 0)
  {
    if ClosestHit(m, objects, ray).Some? {
      ClosestIsFirstMinimum(m, objects, ray);
    }
  }

  /** The blend of the direct and reflected colours stays between them, channel by
      channel, for a reflectivity between 0 and 1. */
  lemma BlendBetween(direct: ColorRGB, reflected: ColorRGB, r: real)
    requires 0.0 <= r <= 1.0
    ensures var b := Blend(direct, reflected, r);
            && Min(direct.R(), reflected.R()) <= b.R() <= Max(direct.R(), reflected.R())
            && Min(direct.G(), reflected.G()) <= b.G() <= Max(direct.G(), reflected.G())
            && Min(direct.B(), reflected.B()) <= b.B() <= Max(direct.B(), reflected.B())
  {
    BlendChannels(direct, reflected, r);
    BlendChannel(direct.R(), reflected.R(), r);
    BlendChannel(direct.G(), reflected.G(), r);
    BlendChannel(direct.B(), reflected.B(), r);
  }

  /** The blend mixes channel by channel. */
  lemma BlendChannels(direct: ColorRGB, reflected: ColorRGB, r: real)
    ensures Blend(direct, reflected, r)
            == Rgb((1.0 - r) * direct.R() + r * reflected.R(), (1.0 - r) * direct.G() + r * reflected.G(),
                   (1.0 - r) * direct.B() + r * reflected.B())
  {
    ChannelsComponentwise(direct, reflected, 1.0 - r);
    ChannelsComponentwise(reflected, direct, r);
    ChannelsComponentwise(direct.Scale(1.0 - r), reflected.Scale(r), 0.0);
  }

  /** One channel of the blend lies between the two channels it mixes. */
  lemma BlendChannel(direct: real, reflected: real, r: real)
    requires 0.0 <= r <= 1.0
    ensures Min(direct, reflected) <= (1.0 - r) * direct + r * reflected <= Max(direct, reflected)
  {
    var blend := (1.0 - r) * direct + r * reflected;
    if direct <= reflected {
      NonNegativeProduct(1.0 - r, reflected - direct);
      NonNegativeProduct(r, reflected - direct);
      assert blend == direct + r * (reflected - direct);
      assert blend == reflected - (1.0 - r) * (reflected - direct);
    } else {
      NonNegativeProduct(1.0 - r, direct - reflected);
      NonNegativeProduct(r, direct - reflected);
      assert blend == direct - r * (direct - reflected);
      assert blend == reflected + (1.0 - r) * (direct - reflected);
    }
  }

  /** When trace reflects off a surface whose reflectivity is in [0, 1], each channel of
      its colour lies between that of the direct illumination and that of the colour
      traced along the reflected ray. */
  lemma ReflectionBetween(m: CMath, objects: seq<Primitive>, lights: seq<PointLight>, ambientLight: ColorRGB,
                          ray: Ray, bouncesLeft: nat)
    requires m.Valid()
    requires |TracePath(m, objects, ray, bouncesLeft)| > 1
    requires 0.0 <= ClosestHit(m, objects, ray).value.objectHit.reflectivity <= 1.0
    ensures var hit := ClosestHit(m, objects, ray).value;
            var direct := Illumination(m, objects, lights, ambientLight, hit.objectHit, hit.location, hit.normal,
                                       ray.origin);
            var reflected := Traced(m, objects, lights, ambientLight, TracePath(m, objects, ray, bouncesLeft)[1],
                                    bouncesLeft - 1);
            var colour := Traced(m, objects, lights, ambientLight, ray, bouncesLeft);
            && Min(direct.R(), reflected.R()) <= colour.R() <= Max(direct.R(), reflected.R())
            && Min(direct.G(), reflected.G()) <= colour.G() <= Max(direct.G(), reflected.G())
            && Min(direct.B(), reflected.B()) <= colour.B() <= Max(direct.B(), reflected.B())
  {
    var hit := ClosestHit(m, objects, ray).value;
    var direct := Illumination(m, objects, lights, ambientLight, hit.objectHit, hit.location, hit.normal, ray.origin);
    var reflected := Traced(m, objects, lights, ambientLight, TracePath(m, objects, ray, bouncesLeft)[1],
                            bouncesLeft - 1);
    TracedAlongPath(m, objects, lights, ambientLight, ray, bouncesLeft);
    BlendBetween(direct, reflected, hit.objectHit.reflectivity);
  }

  lemma NonNegativeProduct(x: real, y: real)
    requires x >= 0.0 && y >= 0.0
    ensures x * y >= 0.0
  {
    if x > 0.0 && y > 0.0 {
      assert x * y > 0.0;
    } else if x == 0.0 {
      assert x * y == 0.0 * y;
    } else {
      assert x * y == x * 0.0;
    }
  }

  /** The sigmoid x^b / (x^b + (0.5/a)^b) applied channel by channel; each channel of
      the result lies in [0, 1). */
  function Sigmoid(m: CMath, c: ColorRGB): (d: ColorRGB)
    requires m.Valid() && c.R() >= 0.0 && c.G() >= 0.0 && c.B() >= 0.0
    ensures 0.0 <= d.R() < 1.0 && 0.0 <= d.G() < 1.0 && 0.0 <= d.B() < 1.0
  {
    var p := c.Power(m, TONE_B);
    var k := m.pow(0.5 / TONE_A, TONE_B);
    SigmoidChannels(p, k);
    p.Hadamard(p.AddScalar(k).Inv())
  }

  /** Channel by channel, p (x) (p + k)^-1 is x / (x + k), which lies in [0, 1). */
  lemma SigmoidChannels(p: ColorRGB, k: real)
    requires p.R() >= 0.0 && p.G() >= 0.0 && p.B() >= 0.0 && k > 0.0
    ensures var d := p.Hadamard(p.AddScalar(k).Inv());
            0.0 <= d.R() < 1.0 && 0.0 <= d.G() < 1.0 && 0.0 <= d.B() < 1.0
  {
    var d := p.Hadamard(p.AddScalar(k).Inv());
    assert d.R() == p.R() * (1.0 / (p.R() + k));
    assert d.G() == p.G() * (1.0 / (p.G() + k));
    assert d.B() == p.B() * (1.0 / (p.B() + k));
    SigmoidChannel(p.R(), k);
    SigmoidChannel(p.G(), k);
    SigmoidChannel(p.B(), k);
  }

  /** x / (x + k) for x >= 0 and k > 0 lies in [0, 1). */
  lemma SigmoidChannel(x: real, k: real)
    requires x >= 0.0 && k > 0.0
    ensures 0.0 <= x * (1.0 / (x + k)) < 1.0
  {
    var inverse := 1.0 / (x + k);
    assert (x + k) * inverse == 1.0;
    assert inverse > 0.0;
    assert x * inverse == 1.0 - k * inverse;
    assert k * inverse > 0.0;
  }

  /** tonemap: the sigmoid, then the display gamma. Its channels are non-negative. */
  function Tonemap(m: CMath, c: ColorRGB): (d: ColorRGB)
    requires m.Valid() && c.R() >= 0.0 && c.G() >= 0.0 && c.B() >= 0.0
    ensures d.R() >= 0.0 && d.G() >= 0.0 && d.B() >= 0.0
  {
    Sigmoid(m, c).Power(m, INV_GAMMA)
  }

  class Renderer {
    const width: int
    const height: int
    const bounces: int

    constructor (width: int, height: int, bounces: int)
      ensures this.width == width && this.height == height && this.bounces == bounces
    {
      this.width := width;
      this.height := height;
      this.bounces := bounces;
    }

    /** illuminate: the ambient term, then a loop that pops each light off a copy of
        the scene's light list and adds its diffuse and specular terms when it is lit. */
    method Illuminate(m: CMath, scene: Scene, material: Material, P: Vector3, N: Vector3, O: Vector3)
      returns (colour: ColorRGB)
      requires m.Valid()
      ensures colour == Illumination(m, scene.objects, scene.pointLights, scene.ambientLight, material, P, N, O)
    {
      var normal := Normalised(m, N);
      colour := Gray(0.0);
      var ambient := scene.GetAmbientLighting();
      var V := Normalised(m, Subtract(O, P));
      colour := colour.Add(material.colour.Hadamard(ambient));
      ghost var start := colour;
      var lights := scene.GetPointLights();
      var len := |lights|;
      for i := 0 to len
        invariant lights == scene.pointLights[i..]
        invariant Sum(Terms(m, scene.objects, material, P, N, normal, V, lights), colour)
                  == Sum(Terms(m, scene.objects, material, P, N, normal, V, scene.pointLights), start)
      {
        var light := lights[0];
        TermsFront(m, scene.objects, material, P, N, normal, V, lights);
        lights := lights[1..];
        var diffuse, specular := LightContribution(m, scene, material, P, N, normal, V, light);
        colour := colour.Add(diffuse).Add(specular);
      }
    }

    /** The body of the light loop for one light: its Phong terms if the shadow ray
        reaches it, black otherwise. */
    method LightContribution(m: CMath, scene: Scene, material: Material, P: Vector3, N: Vector3,
                             normal: Vector3, V: Vector3, light: PointLight)
      returns (diffuse: ColorRGB, specular: ColorRGB)
      requires m.Valid()
      ensures Phong(diffuse, specular) == LightTerms(m, scene.objects, material, P, N, normal, V, light)
    {
      diffuse, specular := Gray(0.0), Gray(0.0);
      var distanceToLight, L, lit := ShadowTest(m, scene, P, N, light);
      var R := Normalised(m, ReflectIn(L, normal));
      if lit {
        var I := IlluminationAt(light, distanceToLight);
        diffuse := Diffuse(material, I, normal, L);
        specular := Specular(m, material, light.colour, I, R, V);
      }
    }

    /** The distance and direction to the light, and whether the shadow ray's nearest
        hit lies beyond the light. */
    method ShadowTest(m: CMath, scene: Scene, P: Vector3, N: Vector3, light: PointLight)
      returns (distanceToLight: real, L: Vector3, lit: bool)
      requires m.Valid()
      ensures distanceToLight == Magnitude(m, ToLight(P, light)) && L == Normalised(m, ToLight(P, light))
      ensures lit <==> Lit(m, scene.objects, P, N, light)
    {
      var toLight := Subtract(light.position, P);
      distanceToLight := Magnitude(m, toLight);
      L := Normalised(m, toLight);
      var shadowRay := Ray(Add(P, Scale(N, EPSILON)), L);
      var shadowCheck := scene.FindClosestIntersection(m, shadowRay);
      lit := distanceToLight != 0.0 && FartherThan(shadowCheck, distanceToLight);
    }

    /** trace: background on a miss; otherwise the direct illumination, blended with the
        colour seen along the mirror direction while bounces are left and the surface
        reflects. */
    method Trace(m: CMath, scene: Scene, ray: Ray, bouncesLeft: nat) returns (colour: ColorRGB)
      requires m.Valid()
      ensures colour == Traced(m, scene.objects, scene.pointLights, scene.ambientLight, ray, bouncesLeft)
      decreases bouncesLeft
    {
      var closestHit := scene.FindClosestIntersection(m, ray);
      if closestHit.None? {
        return BACKGROUND;
      }
      var obj := closestHit.value.objectHit;
      var P := closestHit.value.location;
      var N := closestHit.value.normal;
      var O := ray.origin;
      var direct := Illuminate(m, scene, obj, P, N, O);
      var reflectivity := obj.reflectivity;
      if bouncesLeft == 0 || reflectivity == 0.0 {
        return direct;
      }
      var R := Scale(Normalised(m, ReflectIn(Normalised(m, ray.direction), Normalised(m, N))), -1.0);
      var reflectedRay := Ray(Add(P, Scale(N, EPSILON)), R);
      var reflected := Trace(m, scene, reflectedRay, bouncesLeft - 1);
      direct := direct.Scale(1.0 - reflectivity);
      reflected := reflected.Scale(reflectivity);
      return direct.Add(reflected);
    }
  }
}
