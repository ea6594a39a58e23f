# Whitted ray tracer core, in Dafny

This project models the rendering core of the RayTracing C++ program:
- the vector and colour algebra (`Vector3`, `ColorRGB`), including the clamp-and-pack step that turns a colour into a 24-bit pixel;
- rays and ray hits;
- the scene objects (`SceneObject`, `Sphere`, `Plane`) with their intersection routines;
- the scene's nearest-hit scan;
- the renderer's `illuminate` (ambient plus Phong terms per point light, with hard shadows) and `trace` (mirror reflection with a bounded bounce budget);
- the camera's primary rays and the tone-mapping sigmoid.

Everything is stated over Dafny's exact `real` numbers.

The model keeps the form of the source:
- Vectors, colours, rays, hits, lights, the camera and the intersection routines are datatypes and functions.
- `SceneObject` is a class for its two setters.
- The scene is a class whose lists grow by appending. Its nearest-hit scan is a loop proved against the fold `ClosestHit`.
- The renderer is a class:
  - `Illuminate` is the light loop over a popped copy of the light list, proved against the fold `Sum` of the lights' terms.
  - `Trace` is the bounded recursion, proved against the function `Traced`.

`sqrt`, `pow` and `tan` from `<cmath>` are library code outside the model. They are a parameter `m: CMath` known only through `m.Valid()`:
- the square root of a non-negative number is non-negative and squares back;
- `pow` of a non-negative base is non-negative, and of a positive base is positive.

`M_PI` is the double constant 3.141592653589793. `pow(x, 2)` is written `x * x`.

The virtual `intersectionWith`/`getNormalAt` pair becomes a match on the tagged datatype `Primitive`. The source stores `SceneObject` by value, which slices off the sphere or plane; the model dispatches on the intended case instead. A hit records the hit object's material, the only part of the object that shading reads. The default `RaycastHit`, whose distance is +infinity, is `None`.

Where the model departs from the code or from its design notes:
- **Sphere, origin on the surface heading in.** The root selection in `Sphere.h` compares `sol1` and `sol2` with 0 strictly. With the ray origin on the surface and the ray heading in, `sol2` is exactly 0, and no branch returns the far root `sol1`, so the code misses. The model follows the code; `Spheres.SurfaceOriginHeadingInMisses` states the case.
- **Shadow test.** The design notes say a shadow hit nearer than the light occludes it. The code lights the point only when the shadow hit is strictly farther than the light, so a hit exactly at the light's distance also occludes. The model follows the code (`Rendering.Lit`).
- **Camera rows.** The vertical pixel coordinate as written is shifted one row up; see Findings. The camera in the model uses the centred coordinate.

## Model

| member | source | states |
|---|---|---|
| Vectors.Uniform | Vector3.h:8 | the single-value constructor sets all three components to that value |
| Vectors.Equals | Vector3.h:68 | componentwise equality holds exactly when the two vectors are equal |
| Vectors.IsZero | Vector3.h:70 | holds exactly when the vector is (0, 0, 0) |
| Vectors.Power | Vector3.h:38 | element-wise pow; a vector with non-negative components gives non-negative components |
| Vectors.Inv | Vector3.h:41 | for non-zero components, the element-wise reciprocal times the vector is (1, 1, 1) |
| Vectors.DotSelfPositive | Vector3.h:30 | v.v is never negative, and is positive exactly when v is not zero |
| Vectors.Magnitude | Vector3.h:45 | the magnitude is non-negative, squares to v.v, and is 0 exactly for the zero vector |
| Vectors.Normalised | Vector3.h:48-51 | a non-zero vector becomes v scaled by 1/magnitude, of unit length; zero stays zero |
| Vectors.NormalisedUnit | Vector3.h:48-51 | normalising a unit vector leaves it unchanged |
| Vectors.SubtractUndoesAdd | Vector3.h:13-21 | subtracting w (or scalar s) after adding it gives back v |
| Vectors.DotSymmetric | Vector3.h:30 | v.w == w.v |
| Vectors.CrossOrthogonal | Vector3.h:33-35 | the cross product is orthogonal to both arguments |
| Vectors.HadamardComponentwise | Vector3.h:24-27 | the Hadamard product is componentwise and commutative; (1,1,1) and scalar 1 are identities |
| Vectors.ReflectInKeepsNormalComponent | Vector3.h:54 | for unit N, reflectIn keeps the component along N |
| Vectors.ReflectInPreservesLength | Vector3.h:54 | for unit N, reflectIn preserves squared length |
| Colors.Rgb | ColorRGB.h:23-29 | r(), g(), b() return the constructor's red, green and blue |
| Colors.Gray | ColorRGB.h:27 | the single-value constructor sets every channel to that value |
| Colors.ChannelsComponentwise | ColorRGB.h:34-44 | add, subtract (colour and scalar), scale and Hadamard scale act channel by channel |
| Colors.ColorRGB.Inv | ColorRGB.h:48 | for non-zero channels, the inverse times the colour is white (1, 1, 1) |
| Colors.ColorRGB.Equals | ColorRGB.h:51 | holds exactly when the colours are equal |
| Colors.ColorRGB.IsZero | ColorRGB.h:53 | holds exactly when all three channels are 0 |
| Colors.ConvertToByte | ColorRGB.h:18-19 | result in [0, 255]; 0 for value <= 0, 255 for value >= 1; in between, the truncation of 255 * value |
| Colors.Pack | ColorRGB.h:60 | bytes shifted to 16, 8 and 0 and or-ed fit in 24 bits and each byte can be extracted again |
| Colors.ToRGB | ColorRGB.h:59-60 | the pixel is below 2^24 and its three bytes are convertToByte of r, g and b |
| Rays.EvaluateAtAffine | Ray.h:25 | evaluateAt(0) is the origin; evaluateAt(t) is origin + t * direction; evaluateAt(s + t) = evaluateAt(s) + t * direction |
| Rays.EvaluateAtDisplacement | Ray.h:25 | evaluateAt(t) minus the origin is the direction scaled by t |
| Hits.ComparisonsWithInfinity | RaycastHit.h:25 | with a miss as +infinity: a hit is closer than a miss, nothing is closer than itself, a miss is farther than any distance |
| SceneObjects.Material.IsTransmissive | SceneObject.h:50 | holds exactly when some transmittance channel is non-zero |
| SceneObjects.DefaultMaterialValues | SceneObject.h:25-27 | defaults: colour 1, kD = kS = alpha = 0, reflectivity 0, opaque, refractive index 1.5 |
| SceneObjects.SceneObject.constructor | SceneObject.h:25-27 | a new object holds the default material |
| SceneObjects.SceneObject.SetColour | SceneObject.h:40 | the colour becomes c and every other field is unchanged |
| SceneObjects.SceneObject.SetReflectivity | SceneObject.h:55 | the reflectivity becomes r and every other field is unchanged |
| PointLights.AreaPositive | PointLight.h:31 | the sphere area 4 pi d^2 is positive away from the light |
| PointLights.IlluminationAt | PointLight.h:30-32 | each channel times 4 pi d^2 equals the light's channel times its intensity |
| PointLights.ZeroIntensityIsDark | PointLight.h:31 | a light of zero intensity gives black at every distance |
| PointLights.InverseSquare | PointLight.h:31 | at twice the distance the illumination is a quarter |
| Cameras.NewCamera | Camera.h:29-32 | aspect * height = width; width_m = tan(fov pi / 360); height_m * aspect = width_m; x_step * width = width_m; y_step * height = height_m |
| Cameras.CastRay | Camera.h:35-39 | the ray starts at the origin, its direction is a unit vector with z > 0 through (x_pos, y_pos, 1), with the centred row coordinate |
| Cameras.PixelSteps | Camera.h:36-37 | x_pos grows by x_step per column and y_pos shrinks by y_step per row |
| Cameras.ColumnsSymmetric | Camera.h:36 | x_pos(0) = -x_pos(width - 1) |
| Cameras.RowsOffCentre | Camera.h:37 | as written, y_pos(0) + y_pos(height - 1) = 2 y_step, not 0 |
| Cameras.SingleRowAboveImage | Camera.h:37 | as written, with one row its centre is at height_m, outside the image plane, whose top edge is at height_m / 2 |
| Cameras.CentredRowsSymmetric | Camera.h:37 | the corrected row coordinate is symmetric about 0 and one step below the row as written |
| Planes.PlaneIntersection | Plane.h:33-49 | D.N = 0 misses; otherwise hits exactly when s >= 0 (0 accepted); a hit is at distance s, at O + sD, on the plane, with the stored normal and the plane's material |
| Planes.CrossingOnPlane | Plane.h:43-46 | O + tD lies on the plane exactly when t is the crossing parameter s |
| Planes.MissMeansBehind | Plane.h:43 | after a non-parallel miss, every point of the line on the plane is behind the origin |
| Planes.RayInPlaneMisses | Plane.h:41 | a ray lying in the plane misses although every point of it is on the plane |
| Spheres.CoefficientsFacts | Sphere.h:40-43 | a = D.D is never negative; a = 0 forces b = 0; a positive discriminant forces a > 0 |
| Spheres.RootsAreOnSphere | Sphere.h:40-42 | t is a root of at^2 + bt + c exactly when evaluateAt(t) is at distance radius from the centre |
| Spheres.RootsAreTheTwoSolutions | Sphere.h:47-49 | with a > 0, every root is (-b + sqrt(disc)) / 2a or (-b - sqrt(disc)) / 2a |
| Spheres.RootNeedsNonNegativeDisc | Sphere.h:51 | with a > 0, a root exists only when the discriminant is not negative |
| Spheres.SolutionsAreRoots | Sphere.h:44-50 | sol1, sol2 (disc > 0) and sol (disc = 0, a != 0) are roots, and sol2 < sol1 |
| Spheres.SphereIntersection | Sphere.h:33-62 | a negative discriminant misses; a hit is at a strictly positive root, at evaluateAt of it, with the normalised normal from the centre |
| Spheres.HitOnSphere | Sphere.h:52-65 | a hit lies on the sphere, and for a non-zero radius its normal is a unit vector |
| Spheres.FlatMisses | Sphere.h:44-61 | with a = 0 the routine misses |
| Spheres.ZeroDirectionMisses | Sphere.h:40-50 | a ray with a zero direction misses |
| Spheres.NearestPositiveRoot | Sphere.h:51-61 | a hit's distance is at most every positive root |
| Spheres.MissMeansNoPositiveRoot | Sphere.h:51-61 | after a miss, with the origin off the surface, no positive t is a root |
| Spheres.InsideHitsFarRoot | Sphere.h:55-56 | from strictly inside (c < 0) the hit is at sol1 |
| Spheres.OutsideHitsNearRoot | Sphere.h:58-59 | with two positive roots the hit is at the nearer one, sol2 |
| Spheres.TangentHit | Sphere.h:50-53 | with disc = 0 and a > 0, the ray hits exactly when -b/2a > 0, and then at -b/2a |
| Spheres.SurfaceOriginHeadingInMisses | Sphere.h:55-61 | from the surface heading in (c = 0, b < 0) the routine misses although sol1 > 0 is a root |
| Primitives.NewSphere | Sphere.h:23-24 | a sphere with the given position, radius and colour, kD 0.8, kS 1.2, alpha 10, reflectivity 0.3, opaque, refractive index 1.5 |
| Primitives.NewSphereWith | Sphere.h:26-27 | a sphere with the given position, radius, colour, kD, kS, alpha and reflectivity, grey transmittance t (so transmissive exactly when t != 0), refractive index 1.5 |
| Primitives.NewPlane | Plane.h:25-27 | a plane with the given point, normal and colour, kD 0.6, kS 0, alpha 0, reflectivity 0.1, opaque, refractive index 1.5 |
| Primitives.NewPlaneWith | Plane.h:29-30 | a plane with the given point, normal, colour, kD, kS, alpha and reflectivity, opaque, refractive index 1.5 |
| Primitives.DefaultsAreSpecialCases | Sphere.h:23-27 | the short sphere and plane constructors equal the full ones applied to the default coefficients and no transmittance |
| Primitives.Intersect | SceneObject.h:33-36 | a hit is at a non-negative distance, at evaluateAt of it, records the object's material and carries getNormalAt there |
| Primitives.HitOnSurface | SceneObject.h:33 | a sphere hit is at distance radius from the centre; a plane hit lies on the plane |
| Scenes.MissIffAllMiss | Scene.h:32-40 | the scan misses exactly when every object misses, in particular with no objects |
| Scenes.ClosestIsMinimal | Scene.h:35-38 | when an object hits, the scan hits, no farther than that object's hit |
| Scenes.ClosestIsFirstMinimum | Scene.h:36 | the result is some object's own hit, and every earlier object misses or is strictly farther: ties go to the earliest |
| Scenes.Scene.constructor | Scene.h:26 | a new scene has no objects, no lights, and ambient light 1 |
| Scenes.Scene.AddObject | Scene.h:28 | appends the object; the lights and ambient light are unchanged |
| Scenes.Scene.AddPointLight | Scene.h:51 | appends the light, so getPointLights gains it at the end and getPointLight stays the first light ever added; objects and ambient unchanged |
| Scenes.Scene.SetAmbientLight | Scene.h:43-45 | getAmbientLighting returns c afterwards; the lists are unchanged |
| Scenes.Scene.FindClosestIntersection | Scene.h:31-41 | the loop returns the fold ClosestHit of the objects in order |
| Rendering.LightTerms | Renderer.h:130-147 | a light that does not shine on P (at P, or shadowed) contributes black diffuse and specular terms |
| Rendering.SumFrom | Renderer.h:125-148 | the light loop's result is its starting colour plus the sum of the lights' terms |
| Rendering.SumAppend | Renderer.h:129-148 | a term appended last is added last: the loop adds terms in list order |
| Rendering.SumOfDark | Renderer.h:144-148 | black terms leave the accumulated colour unchanged |
| Rendering.TermsOfJoin | Renderer.h:127-133 | the terms of a joined light list are the terms of each part in order |
| Rendering.TermsFront | Renderer.h:132-133 | popping the front light yields its term first and the rest's terms after |
| Rendering.AmbientAlwaysIncluded | Renderer.h:116-125 | illuminate returns C_diff (x) I_a plus the lights' contributions |
| Rendering.DarkLightsAddNothing | Renderer.h:129-148 | lights that do not shine on P leave the running colour unchanged, whatever the normal and view vectors |
| Rendering.NoLightIsAmbient | Renderer.h:144-148 | when no light shines on P, illuminate returns C_diff (x) I_a exactly |
| Rendering.MirrorReflection | Renderer.h:98 | for unit d and N the reflected direction is d - 2(d.N)N, of unit length, with its N-component reversed |
| Rendering.TracePath | Renderer.h:96-100 | trace follows at most bouncesLeft + 1 rays, starting with the given ray |
| Rendering.PathIsReflections | Renderer.h:96-100 | each ray of the path after the first is the mirror ray of the one before at its reflective hit; a path shorter than the budget ends at a miss or a non-reflective hit |
| Rendering.TracedAlongPath | Renderer.h:80-106 | trace recurses exactly along TracePath: a one-ray path gives the background or the direct illumination; otherwise the direct colour is blended with the colour traced along the path's second ray with one bounce fewer |
| Rendering.MissIsBackground | Renderer.h:83-85 | a ray that every object misses gets the background colour 0.001 |
| Rendering.NoMirrorsNoBounces | Renderer.h:96 | with no reflective object, the result does not depend on bouncesLeft |
| Rendering.BlendBetween | Renderer.h:101-104 | for reflectivity in [0, 1], each channel of (1 - r) direct + r reflected lies between the direct and reflected channels |
| Rendering.BlendChannels | Renderer.h:101-104 | the blend is computed channel by channel |
| Rendering.ReflectionBetween | Renderer.h:96-104 | when trace reflects off a surface with reflectivity in [0, 1], each channel of its colour lies between the direct illumination and the colour traced along the reflected ray |
| Rendering.Sigmoid | Renderer.h:63-69 | for non-negative channels, x^b / (x^b + (0.5/a)^b) lies in [0, 1) channel by channel |
| Rendering.Tonemap | Renderer.h:63-73 | for non-negative channels, the tone-mapped channels are non-negative |
| Rendering.Renderer.constructor | Renderer.h:33 | stores width, height and bounces |
| Rendering.Renderer.ShadowTest | Renderer.h:136-144 | returns the distance and unit direction to the light, and whether the shadow ray's nearest hit is strictly beyond it |
| Rendering.Renderer.LightContribution | Renderer.h:130-147 | one pass of the light loop computes the light's Phong terms |
| Rendering.Renderer.Illuminate | Renderer.h:111-151 | the loop over the popped copy of the lights returns Illumination, the ambient term plus the fold of the lights' terms |
| Rendering.Renderer.Trace | Renderer.h:80-106 | the recursion returns Traced: background on a miss, direct light when no bounce is left or the surface does not reflect, else the blend with the reflected ray's colour |

## Left out

- `SceneLoader.h` is not part of this model: it is XML scene loading, that is, I/O over a library outside the model.
- `Renderer::render` is not part of this model: it allocates the image, loops over pixels and prints progress, which is I/O. Its per-pixel chain is modelled piece by piece: `CastRay`, `Trace`, `Tonemap` and `ToRGB`.
- `Vector3::randomInsideUnitSphere` is not part of this model: it uses `rand` and trigonometry, and nothing calls it.
- IEEE doubles are not modelled: no rounding, NaN or infinities. The miss is `None` rather than a distance of +infinity.
- Vectors.Normalised: the zero vector normalises to itself, where the source divides by zero and gets NaN components. Two cases reach it. (1) The view vector at a plane hit at distance 0: there the source's `std::ranges::max(0, NaN)` gives the same zero specular factor. (2) Every hit on a sphere of radius 0 has normal zero: in the source that normal is NaN, so both `max(0, NaN)` factors are 0 and the point gets no diffuse or specular light, and its reflected ray is NaN and sees nothing. The model differs there. The diffuse term is also 0, but R = normalised(L reflected in zero) = -L, so the specular term is non-zero whenever -L.V > 0 (for instance with the light straight ahead along the ray through the point). The reflected ray goes straight on from the hit point instead of being NaN. Zero-radius spheres are not excluded, because the source accepts any radius.
- Rendering.LightTerms: a light exactly at the shaded point contributes nothing. The source divides by a zero distance there.
- Spheres.SphereIntersection: a zero ray direction misses. The source computes 0/0 there, and every comparison with that NaN is false, so it misses too.
- `sqrt`, `pow` and `tan` are abstract. Their values are known only through `CMath.Valid`, so nothing is proved about the specular exponent or the exact camera width.
- Rendering.Tonemap and Rendering.Sigmoid require non-negative channels. For a negative channel the source's `pow` is NaN.
- Rendering.Renderer.Trace: `bouncesLeft` is a `nat`. With a negative budget the source recurses until a miss or a non-reflective surface.
- The base constructor `SceneObject(colour, kD, kS, alpha, reflectivity[, transmittance])` that `Sphere.h` and `Plane.h` call is not defined in the source. The model assumes it sets the named fields and keeps the default refractive index 1.5. It also assumes a grey transmittance of the given value, or 0 when none is passed.
- Transmittance and refractive index are carried in the material but never used by tracing, as in the source.
- Pointer details are not modelled: the leaked `new RaycastHit` and `new Vector3`, and the mismatched return types of `intersectionWith`.
- The `RaycastHit`, `Ray` and `PointLight` getters are not separate members: each is a datatype field, returned unchanged.
- Colors.ToRGB returns the 32-bit pattern (`bv32`) of the source's `int`.

## Findings

| source | as written | input that shows it | evidently intended | confidence | as-written member | corrected member |
|---|---|---|---|---|---|---|
| Camera.h:37 | y_pos = (y_step_m + height_m)/2 - y * y_step_m | any image: rows 0 and height-1 sum to 2 y_step_m, not 0. With a height of 1 pixel, row 0 sits at height_m, outside the image plane (its top edge is height_m/2) | (height_m - y_step_m)/2 - y * y_step_m, mirroring x_pos, so rows are centred about the optical axis | medium, not executed | Cameras.RowsOffCentre | Cameras.CentredRowsSymmetric |
