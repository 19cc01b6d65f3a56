// The ray tracer's scene (src/trace/Scene.h): point lights and spheres,
// the nearest-hit search, and the shading recursion that adds one bounce of
// specular reflection per level. Scene.h takes `hitSphere` from
// math/Intersect.h, which is not part of this model; it is taken to be
// src/vector/Intersect.h's. The sphere test is the corrected
// `Intersect.HitSphere`, which reports the same hits and the same t as the
// test as written (`Intersect.HitSphereAgreesOnT`). The BRDF terms `L::Kd`
// and `L::Ks` (src/trace/Light.h) are parameters.

module Scenes {
  import L = Lanes
  import N = Intersect
  import C = Colors

  /** A surface material: diffuse colour, roughness, reflectance at normal incidence and specular colour. */
  datatype Material = Material(diffuse: C.Color, roughness: real, reflectance: real, specular: C.Color)

  /** A point light. */
  datatype Light = Light(origin: L.Vec4, color: C.Color, intensity: real)

  /** A sphere of the scene with its material. */
  datatype TraceSphere = TraceSphere(sphere: N.Sphere, material: Material)

  /** A hit together with the material of the sphere it is on. */
  datatype TraceHit = TraceHit(hit: N.Hit, material: Material)

  /** A BRDF term over material, normal, light direction, view direction and half vector. */
  type Brdf = (Material, L.Vec4, L.Vec4, L.Vec4, L.Vec4) -> real

  /** The functions shading depends on: the square root and the two BRDF terms of the lighting model. */
  datatype Shader = Shader(sqrt: real -> real, kd: Brdf, ks: Brdf)

  /** The lights and spheres, fixed at construction. */
  datatype Scene = Scene(lights: seq<Light>, spheres: seq<TraceSphere>)

  /** `kEpsilon`: how far hit points are lifted off the surface along the normal. */
  const Epsilon: real := 0.00001

  /** How far a reflected ray reaches: `direction * 1e3`. */
  const ReflectReach: real := 1000.0

  // ---------------------------------------------------------------------
  // Nearest hit.

  /** The distance bound the search keeps: the nearest `t` so far, or 1 before any hit. */
  function MinDist(best: N.Option<TraceHit>): real
  {
    if best.Some? then best.value.hit.t else 1.0
  }

  /** A hit on a sphere, tagged with the sphere's material. */
  function Tag(h: N.Option<N.Hit>, material: Material): N.Option<TraceHit>
  {
    if h.Some? then N.Some(TraceHit(h.value, material)) else N.None
  }

  /** The outcome of the sphere test on every sphere, in order. */
  function Candidates(sqrt: real -> real, ray: N.Ray, spheres: seq<TraceSphere>): (r: seq<N.Option<TraceHit>>)
    ensures |r| == |spheres|
    ensures forall i :: 0 <= i < |spheres| ==> r[i] == Tag(N.HitSphere(sqrt, ray, spheres[i].sphere), spheres[i].material)
  {
    seq(|spheres|, i requires 0 <= i < |spheres| => Tag(N.HitSphere(sqrt, ray, spheres[i].sphere), spheres[i].material))
  }

  /** A candidate strictly before the ray's end. */
  predicate Hits(c: N.Option<TraceHit>)
  {
    c.Some? && c.value.hit.t < 1.0
  }

  /**
   * What the search of `Trace` keeps after the given candidates, in order: a
   * hit replaces the current one only when it is strictly nearer.
   */
  function Select(cands: seq<N.Option<TraceHit>>): (r: N.Option<TraceHit>)
    ensures r.Some? ==> r.value.hit.t < 1.0
    decreases |cands|
  {
    if |cands| == 0 then N.None
    else
      var best := Select(cands[..|cands| - 1]);
      var last := cands[|cands| - 1];
      if last.Some? && last.value.hit.t < MinDist(best) then last else best
  }

  /** The search finds a hit exactly when some candidate lies before the ray's end. */
  lemma {:induction false} SelectFound(cands: seq<N.Option<TraceHit>>)
    ensures Select(cands).Some? <==> exists i :: 0 <= i < |cands| && Hits(cands[i])
    decreases |cands|
  {
    if |cands| > 0 {
      var init := cands[..|cands| - 1];
      SelectFound(init);
      assert forall i :: 0 <= i < |init| ==> init[i] == cands[i];
      if Hits(cands[|cands| - 1]) {
        assert Select(cands).Some?;
      }
    }
  }

  /** The hit kept is no further than any candidate. */
  lemma {:induction false} SelectIsMinimal(cands: seq<N.Option<TraceHit>>, i: nat)
    requires i < |cands| && Select(cands).Some? && cands[i].Some?
    ensures Select(cands).value.hit.t <= cands[i].value.hit.t
    decreases |cands|
  {
    var init := cands[..|cands| - 1];
    if i < |init| {
      assert init[i] == cands[i];
      if Select(init).Some? {
        SelectIsMinimal(init, i);
      } else {
        SelectFound(init);
      }
    }
  }

  /**
   * The hit kept is one of the candidates, and every candidate before it is
   * a miss or strictly further away: the first of equally near hits wins.
   */
  lemma {:induction false} SelectIsFirst(cands: seq<N.Option<TraceHit>>)
    requires Select(cands).Some?
    ensures exists i :: 0 <= i < |cands| && cands[i] == Select(cands)
              && forall j :: 0 <= j < i && cands[j].Some? ==> cands[j].value.hit.t > Select(cands).value.hit.t
    decreases |cands|
  {
    var n := |cands|;
    var init := cands[..n - 1];
    var best := Select(init);
    var b := Select(cands);
    if b == best {
      SelectIsFirst(init);
      var i :| 0 <= i < |init| && init[i] == best
                && forall j :: 0 <= j < i && init[j].Some? ==> init[j].value.hit.t > best.value.hit.t;
      assert cands[i] == init[i];
      forall j | 0 <= j < i && cands[j].Some?
        ensures cands[j].value.hit.t > b.value.hit.t
      {
        assert cands[j] == init[j];
      }
    } else {
      assert b == cands[n - 1];
      forall j | 0 <= j < n - 1 && cands[j].Some?
        ensures cands[j].value.hit.t > b.value.hit.t
      {
        assert cands[j] == init[j];
        if best.Some? {
          SelectIsMinimal(init, j);
        } else {
          SelectFound(init);
        }
      }
    }
  }

  /** The nearest hit along the ray, as `Trace` finds it: its t lies in [0, 1). */
  function Nearest(sqrt: real -> real, ray: N.Ray, spheres: seq<TraceSphere>): (r: N.Option<TraceHit>)
    ensures r.Some? ==> 0.0 <= r.value.hit.t < 1.0
  {
    var cands := Candidates(sqrt, ray, spheres);
    var best := Select(cands);
    if best.None? then best
    else
      SelectIsFirst(cands);
      best
  }

  /**
   * `Trace` finds a hit exactly when the sphere test succeeds on some sphere
   * with t < 1 (a hit at t == 1 is never reported); the hit found is no
   * further than any hit on any sphere, is on the first sphere with that
   * least t, and carries that sphere's material.
   */
  lemma NearestHit(sqrt: real -> real, ray: N.Ray, spheres: seq<TraceSphere>)
    ensures Nearest(sqrt, ray, spheres).Some? <==>
              exists i :: 0 <= i < |spheres| && N.HitSphere(sqrt, ray, spheres[i].sphere).Some?
                                             && N.HitSphere(sqrt, ray, spheres[i].sphere).value.t < 1.0
    ensures Nearest(sqrt, ray, spheres).Some? ==>
              var b := Nearest(sqrt, ray, spheres).value;
              (forall i :: 0 <= i < |spheres| && N.HitSphere(sqrt, ray, spheres[i].sphere).Some? ==>
                 b.hit.t <= N.HitSphere(sqrt, ray, spheres[i].sphere).value.t)
              && exists i :: 0 <= i < |spheres| && N.HitSphere(sqrt, ray, spheres[i].sphere) == N.Some(b.hit)
                   && b.material == spheres[i].material
                   && forall j :: 0 <= j < i && N.HitSphere(sqrt, ray, spheres[j].sphere).Some? ==>
                        N.HitSphere(sqrt, ray, spheres[j].sphere).value.t > b.hit.t
  {
    var cands := Candidates(sqrt, ray, spheres);
    SelectFound(cands);
    if Select(cands).Some? {
      forall i | 0 <= i < |spheres| && N.HitSphere(sqrt, ray, spheres[i].sphere).Some?
        ensures Select(cands).value.hit.t <= N.HitSphere(sqrt, ray, spheres[i].sphere).value.t
      {
        SelectIsMinimal(cands, i);
      }
      SelectIsFirst(cands);
    }
  }

  /**
   * `Trace`: the loop over the spheres keeping `mindist` and `hit`. The hit
   * is written only when a nearer one is found, so `None` is a `hit` left
   * untouched.
   */
  method Trace(sqrt: real -> real, scene: Scene, start: L.Vec4, end: L.Vec4) returns (found: bool, hit: N.Option<TraceHit>)
    ensures hit == Nearest(sqrt, N.Ray(start, end), scene.spheres)
    ensures found <==> hit.Some?
  {
    var ray := N.Ray(start, end);
    ghost var cands := Candidates(sqrt, ray, scene.spheres);
    var mindist := 1.0;
    hit := N.None;
    var i := 0;
    while i < |scene.spheres|
      invariant 0 <= i <= |scene.spheres|
      invariant hit == Select(cands[..i])
      invariant mindist == MinDist(hit)
    {
      var sphere := scene.spheres[i];
      var tmp := N.HitSphere(sqrt, ray, sphere.sphere);
      assert cands[..i + 1][..i] == cands[..i];
      assert cands[i] == Tag(tmp, sphere.material);
      if tmp.Some? && tmp.value.t < mindist {
        hit := N.Some(TraceHit(tmp.value, sphere.material));
        mindist := tmp.value.t;
      }
      i := i + 1;
    }
    assert cands[..|cands|] == cands;
    found := mindist < 1.0;
  }

  // ---------------------------------------------------------------------
  // Shading.

  /**
   * `ShadeLight`: the light seen from `point` on a surface with normal
   * `normal`, viewed along `vector`. Nothing when the light is behind the
   * surface; otherwise the BRDF terms weight the light's colour times the
   * diffuse and specular colours, scaled by cos(angle) times intensity over
   * the squared distance.
   */
  function ShadeLight(sh: Shader, material: Material, normal: L.Vec4, light: Light, point: L.Vec4, vector: L.Vec4): (r: C.Color)
    ensures L.Dot(L.Sub(light.origin, point), normal) <= 0.0 ==> r == C.Black
  {
    var l := L.Sub(light.origin, point);
    if L.Dot(l, normal) <= 0.0 then C.Black
    else C.Scale(Reflectance(sh, material, normal, l, vector, light.color), Falloff(sh, normal, l, light.intensity))
  }

  /**
   * `Kd * light.color * material.diffuse_color + Ks * light.color *
   * material.specular_color`, with the BRDF terms taken at the normalized
   * light and view directions and their normalized half vector.
   */
  function Reflectance(sh: Shader, material: Material, normal: L.Vec4, l: L.Vec4, vector: L.Vec4, color: C.Color): C.Color
  {
    var ln := L.Normalize(l, sh.sqrt);
    var v := L.Normalize(vector, sh.sqrt);
    var h := L.Normalize(L.Add(ln, v), sh.sqrt);
    var kd := sh.kd(material, normal, ln, v, h);
    var ks := sh.ks(material, normal, ln, v, h);
    C.Add(C.Mul(C.Scale(color, kd), material.diffuse), C.Mul(C.Scale(color, ks), material.specular))
  }

  /** `K = l * n * light.intensity / (light.origin - point).LengthSqr()`, with `l` normalized. */
  function Falloff(sh: Shader, normal: L.Vec4, l: L.Vec4, intensity: real): real
  {
    L.Quot(L.Dot(L.Normalize(l, sh.sqrt), normal) * intensity, L.LengthSqr(l))
  }

  /** The ray `ShadeIndirect` traces: from just off the surface out along `direction`. */
  function ReflectedRay(origin: L.Vec4, normal: L.Vec4, direction: L.Vec4): N.Ray
  {
    N.Ray(L.Add(origin, L.Scale(normal, Epsilon)), L.Add(origin, L.Scale(direction, ReflectReach)))
  }

  /** The direction of the specular bounce: `normal.Reflect(-view)`. */
  function Mirror(normal: L.Vec4, view: L.Vec4): L.Vec4
  {
    L.Reflect(normal, L.Neg(view))
  }

  /** A hit point lifted off its surface: `hit.point + hit.normal * kEpsilon`. */
  function Lifted(hit: N.Hit): L.Vec4
  {
    L.Add(hit.point, L.Scale(hit.normal, Epsilon))
  }

  /** The measure that bounds the shading recursion: `Shade` sits one above the `ShadeIndirect` it calls. */
  function Budget(hitCount: int): nat
  {
    if hitCount > 0 then hitCount else 0
  }

  /** A light is occluded when `Trace` from the point to the light finds a sphere. */
  predicate Occluded(sh: Shader, scene: Scene, origin: L.Vec4, light: Light)
  {
    Nearest(sh.sqrt, N.Ray(origin, light.origin), scene.spheres).Some?
  }

  /** The direct term of `Shade`: the sum of `ShadeLight` over the given lights, skipping occluded ones. */
  function DirectValue(sh: Shader, scene: Scene, material: Material, origin: L.Vec4, normal: L.Vec4, view: L.Vec4,
                       lights: seq<Light>): C.Color
    decreases |lights|
  {
    if |lights| == 0 then C.Black
    else
      var acc := DirectValue(sh, scene, material, origin, normal, view, lights[..|lights| - 1]);
      DirectTerm(sh, scene, material, origin, normal, view, acc, lights[|lights| - 1])
  }

  /** One light's step of the direct sum: `acc` unchanged when the light is occluded, else plus its `ShadeLight`. */
  function DirectTerm(sh: Shader, scene: Scene, material: Material, origin: L.Vec4, normal: L.Vec4, view: L.Vec4,
                      acc: C.Color, light: Light): C.Color
  {
    if Occluded(sh, scene, origin, light) then acc
    else C.Add(acc, ShadeLight(sh, material, normal, light, origin, view))
  }

  /** `Shade`: the direct light, plus the specular bounce while `hitCount > 0`. */
  function ShadeValue(sh: Shader, scene: Scene, material: Material, origin: L.Vec4, normal: L.Vec4, view: L.Vec4,
                      hitCount: int): C.Color
    decreases 2 * Budget(hitCount) + 1
  {
    var direct := DirectValue(sh, scene, material, origin, normal, view, scene.lights);
    if hitCount > 0 then
      C.Add(direct, IndirectValue(sh, scene, material, origin, normal, view, Mirror(normal, view), hitCount))
    else direct
  }

  /**
   * `ShadeIndirect`: the surface the reflected ray meets, shaded with one
   * bounce less, acts as a light of intensity 1 at its lifted hit point.
   * Nothing when the ray meets no surface.
   */
  function IndirectValue(sh: Shader, scene: Scene, material: Material, origin: L.Vec4, normal: L.Vec4, view: L.Vec4,
                         direction: L.Vec4, hitCount: int): (r: C.Color)
    ensures Nearest(sh.sqrt, ReflectedRay(origin, normal, direction), scene.spheres).None? ==> r == C.Black
    decreases 2 * Budget(hitCount - 1) + 2
  {
    match Nearest(sh.sqrt, ReflectedRay(origin, normal, direction), scene.spheres)
    case None => C.Black
    case Some(hit) =>
      var hitpoint := Lifted(hit.hit);
      var newView := L.Normalize(L.Sub(origin, hit.hit.point), sh.sqrt);
      var hitcolor := ShadeValue(sh, scene, hit.material, hitpoint, hit.hit.normal, newView, hitCount - 1);
      ShadeLight(sh, material, normal, Light(hitpoint, hitcolor, 1.0), origin, view)
  }

  /** Occluded lights contribute nothing: the direct term is the same with them removed. */
  lemma DirectSkipsOccluded(sh: Shader, scene: Scene, material: Material, origin: L.Vec4, normal: L.Vec4,
                            view: L.Vec4, lights: seq<Light>, light: Light)
    requires Occluded(sh, scene, origin, light)
    ensures DirectValue(sh, scene, material, origin, normal, view, lights + [light])
            == DirectValue(sh, scene, material, origin, normal, view, lights)
    ensures DirectValue(sh, scene, material, origin, normal, view, [light] + lights)
            == DirectValue(sh, scene, material, origin, normal, view, lights)
  {
    assert (lights + [light])[..|lights|] == lights;
    DirectSkipsOccludedFirst(sh, scene, material, origin, normal, view, lights, light);
  }

  /** An occluded first light contributes nothing. */
  lemma {:induction false} DirectSkipsOccludedFirst(sh: Shader, scene: Scene, material: Material, origin: L.Vec4,
                                                    normal: L.Vec4, view: L.Vec4, lights: seq<Light>, light: Light)
    requires Occluded(sh, scene, origin, light)
    ensures DirectValue(sh, scene, material, origin, normal, view, [light] + lights)
            == DirectValue(sh, scene, material, origin, normal, view, lights)
    decreases |lights|
  {
    if |lights| > 0 {
      var init, front := lights[..|lights| - 1], [light] + lights;
      DirectSkipsOccludedFirst(sh, scene, material, origin, normal, view, init, light);
      assert front[..|front| - 1] == [light] + init;
      assert front[|front| - 1] == lights[|lights| - 1];
    } else {
      assert ([light] + lights)[..0] == [];
    }
  }

  /** The shaded point one specular bounce further on: its lifted origin, normal and view direction. */
  datatype Bounce = Bounce(origin: L.Vec4, normal: L.Vec4, view: L.Vec4)

  /** The surface the reflected ray of `IndirectValue` meets, as the point `ShadeValue` shades next. */
  function NextBounce(sh: Shader, scene: Scene, origin: L.Vec4, normal: L.Vec4, view: L.Vec4): N.Option<Bounce>
  {
    match Nearest(sh.sqrt, ReflectedRay(origin, normal, Mirror(normal, view)), scene.spheres)
    case None => N.None
    case Some(hit) => N.Some(Bounce(Lifted(hit.hit), hit.hit.normal, L.Normalize(L.Sub(origin, hit.hit.point), sh.sqrt)))
  }

  /** The number of surfaces the chain of specular bounces from a shaded point meets. */
  function Bounces(sh: Shader, scene: Scene, origin: L.Vec4, normal: L.Vec4, view: L.Vec4, hitCount: int): nat
    decreases Budget(hitCount)
  {
    if hitCount <= 0 then 0
    else
      match NextBounce(sh, scene, origin, normal, view)
      case None => 0
      case Some(b) => 1 + Bounces(sh, scene, b.origin, b.normal, b.view, hitCount - 1)
  }

  /** At most `hitCount` surfaces are shaded below the first one, and none when it is not positive. */
  lemma {:induction false} BouncesBounded(sh: Shader, scene: Scene, origin: L.Vec4, normal: L.Vec4, view: L.Vec4, hitCount: int)
    ensures Bounces(sh, scene, origin, normal, view, hitCount) <= Budget(hitCount)
    decreases Budget(hitCount)
  {
    if hitCount > 0 {
      match NextBounce(sh, scene, origin, normal, view)
      case None =>
      case Some(b) => BouncesBounded(sh, scene, b.origin, b.normal, b.view, hitCount - 1);
    }
  }

  /** With no bounces left, shading is the direct light alone; a reflected ray that meets nothing adds nothing. */
  lemma ShadeWithoutBounce(sh: Shader, scene: Scene, material: Material, origin: L.Vec4, normal: L.Vec4, view: L.Vec4, hitCount: int)
    ensures hitCount <= 0 || Bounces(sh, scene, origin, normal, view, hitCount) == 0 ==>
              ShadeValue(sh, scene, material, origin, normal, view, hitCount)
              == DirectValue(sh, scene, material, origin, normal, view, scene.lights)
  {
    if hitCount > 0 && Bounces(sh, scene, origin, normal, view, hitCount) == 0 {
      var mirror := Mirror(normal, view);
      assert IndirectValue(sh, scene, material, origin, normal, view, mirror, hitCount) == C.Black;
      C.AddLaws(DirectValue(sh, scene, material, origin, normal, view, scene.lights), C.Black, C.Black);
    }
  }

  /** The direct term over one more light: that light's contribution is added unless it is occluded. */
  lemma DirectStep(sh: Shader, scene: Scene, material: Material, origin: L.Vec4, normal: L.Vec4, view: L.Vec4,
                   lights: seq<Light>, i: nat)
    requires i < |lights|
    ensures DirectValue(sh, scene, material, origin, normal, view, lights[..i + 1])
            == if Occluded(sh, scene, origin, lights[i]) then DirectValue(sh, scene, material, origin, normal, view, lights[..i])
               else C.Add(DirectValue(sh, scene, material, origin, normal, view, lights[..i]),
                          ShadeLight(sh, material, normal, lights[i], origin, view))
  {
    assert lights[..i + 1][..i] == lights[..i];
  }

  /** `Shade` as written: the loop over the lights with `+=`, then the bounce. */
  method Shade(sh: Shader, scene: Scene, material: Material, origin: L.Vec4, normal: L.Vec4, view: L.Vec4, hitCount: int)
    returns (color: C.Color)
    ensures color == ShadeValue(sh, scene, material, origin, normal, view, hitCount)
    decreases 2 * Budget(hitCount) + 1
  {
    color := C.Black;
    var i := 0;
    while i < |scene.lights|
      invariant 0 <= i <= |scene.lights|
      invariant color == DirectValue(sh, scene, material, origin, normal, view, scene.lights[..i])
    {
      var light := scene.lights[i];
      DirectStep(sh, scene, material, origin, normal, view, scene.lights, i);
      var occluded, _ := Trace(sh.sqrt, scene, origin, light.origin);
      if !occluded {
        color := C.Add(color, ShadeLight(sh, material, normal, light, origin, view));
      }
      i := i + 1;
    }
    assert scene.lights[..|scene.lights|] == scene.lights;
    if hitCount > 0 {
      var indirect := ShadeIndirect(sh, scene, material, origin, normal, view, Mirror(normal, view), hitCount);
      color := C.Add(color, indirect);
    }
  }

  /** `ShadeIndirect` as written. */
  method ShadeIndirect(sh: Shader, scene: Scene, material: Material, origin: L.Vec4, normal: L.Vec4, view: L.Vec4,
                       direction: L.Vec4, hitCount: int) returns (color: C.Color)
    ensures color == IndirectValue(sh, scene, material, origin, normal, view, direction, hitCount)
    decreases 2 * Budget(hitCount - 1) + 2
  {
    var ray := ReflectedRay(origin, normal, direction);
    var found, hit := Trace(sh.sqrt, scene, ray.start, ray.end);
    if found {
      var hitpoint := L.Add(hit.value.hit.point, L.Scale(hit.value.hit.normal, Epsilon));
      var newView := L.Normalize(L.Sub(origin, hit.value.hit.point), sh.sqrt);
      var hitcolor := Shade(sh, scene, hit.value.material, hitpoint, hit.value.hit.normal, newView, hitCount - 1);
      color := ShadeLight(sh, material, normal, Light(hitpoint, hitcolor, 1.0), origin, view);
    } else {
      color := C.Black;
    }
  }

  /** The default number of bounces of `TraceColor`. */
  const DefaultHitCount: int := 4

  /** What `TraceColor` stores: the shaded colour at the nearest hit, if there is one. */
  function TraceColorValue(sh: Shader, scene: Scene, start: L.Vec4, end: L.Vec4, hitCount: int): (r: N.Option<C.Color>)
    ensures r.Some? <==> Nearest(sh.sqrt, N.Ray(start, end), scene.spheres).Some?
  {
    match Nearest(sh.sqrt, N.Ray(start, end), scene.spheres)
    case None => N.None
    case Some(hit) =>
      var view := L.Normalize(L.Sub(start, hit.hit.point), sh.sqrt);
      N.Some(ShadeValue(sh, scene, hit.material, Lifted(hit.hit), hit.hit.normal, view, hitCount))
  }

  /**
   * `TraceColor`: writes the shaded colour of the nearest hit into `color`
   * and returns true, or returns false and leaves `color` as it was.
   */
  method TraceColor(sh: Shader, scene: Scene, start: L.Vec4, end: L.Vec4, color: C.ColorCell, hitCount: int) returns (found: bool)
    modifies color
    ensures found <==> TraceColorValue(sh, scene, start, end, hitCount).Some?
    ensures found ==> color.value == TraceColorValue(sh, scene, start, end, hitCount).value
    ensures !found ==> color.value == old(color.value)
  {
    var hit;
    found, hit := Trace(sh.sqrt, scene, start, end);
    if found {
      var view := L.Normalize(L.Sub(start, hit.value.hit.point), sh.sqrt);
      var hitpoint := L.Add(hit.value.hit.point, L.Scale(hit.value.hit.normal, Epsilon));
      var shaded := Shade(sh, scene, hit.value.material, hitpoint, hit.value.hit.normal, view, hitCount);
      color.value := shaded;
    }
  }

  // ---------------------------------------------------------------------
  // Properties of the shading terms.

  /** A light is occluded exactly when some sphere is hit between the point (t = 0) and the light (t = 1). */
  lemma OccludedExactly(sh: Shader, scene: Scene, origin: L.Vec4, light: Light)
    ensures Occluded(sh, scene, origin, light) <==>
              exists i :: 0 <= i < |scene.spheres| && N.HitSphere(sh.sqrt, N.Ray(origin, light.origin), scene.spheres[i].sphere).Some?
                                                    && N.HitSphere(sh.sqrt, N.Ray(origin, light.origin), scene.spheres[i].sphere).value.t < 1.0
  {
    NearestHit(sh.sqrt, N.Ray(origin, light.origin), scene.spheres);
  }

  /** When every light is occluded, the direct term is black. */
  lemma {:induction false} DirectAllOccluded(sh: Shader, scene: Scene, material: Material, origin: L.Vec4, normal: L.Vec4,
                                             view: L.Vec4, lights: seq<Light>)
    requires forall i :: 0 <= i < |lights| ==> Occluded(sh, scene, origin, lights[i])
    ensures DirectValue(sh, scene, material, origin, normal, view, lights) == C.Black
    decreases |lights|
  {
    if |lights| > 0 {
      DirectAllOccluded(sh, scene, material, origin, normal, view, lights[..|lights| - 1]);
    }
  }

  /**
   * The bounce direction leaves on the viewer's side of the surface at the
   * viewer's angle (its component along the normal is the view's) and has
   * the view's length.
   */
  lemma MirrorReflects(normal: L.Vec4, view: L.Vec4)
    requires L.LengthSqr(normal) != 0.0
    ensures L.Dot(normal, Mirror(normal, view)) == L.Dot(normal, view)
    ensures L.LengthSqr(Mirror(normal, view)) == L.LengthSqr(view)
  {
    var v := L.Neg(view);
    L.ReflectNegatesNormalPart(normal, v);
    L.ReflectIsometric(normal, v);
    L.DotScale(normal, view, -1.0);
    L.DotScale(view, view, -1.0);
    L.DotSymmetric(v, view);
    L.DotScale(v, view, -1.0);
  }

  /** A black light is reflected as black, whatever the BRDF terms. */
  lemma ReflectanceOfBlack(sh: Shader, material: Material, normal: L.Vec4, l: L.Vec4, vector: L.Vec4)
    ensures Reflectance(sh, material, normal, l, vector, C.Black) == C.Black
  {
    var ln := L.Normalize(l, sh.sqrt);
    var v := L.Normalize(vector, sh.sqrt);
    var h := L.Normalize(L.Add(ln, v), sh.sqrt);
    var kd := sh.kd(material, normal, ln, v, h);
    var ks := sh.ks(material, normal, ln, v, h);
    BlackWeighted(kd, ks, material.diffuse, material.specular);
  }

  /** Black weighted by any two terms and colours sums to black. */
  lemma BlackWeighted(kd: real, ks: real, diffuse: C.Color, specular: C.Color)
    ensures C.Add(C.Mul(C.Scale(C.Black, kd), diffuse), C.Mul(C.Scale(C.Black, ks), specular)) == C.Black
  {
    assert C.Scale(C.Black, kd) == C.Black;
    assert C.Scale(C.Black, ks) == C.Black;
    assert C.Mul(C.Black, diffuse) == C.Black;
    assert C.Mul(C.Black, specular) == C.Black;
  }

  /**
   * A light in front of the surface with positive intensity lights it: the
   * falloff, at a light away from the point, cos(angle) · intensity / distance² is positive.
   */
  lemma FalloffPositive(sh: Shader, normal: L.Vec4, l: L.Vec4, intensity: real)
    requires L.IsSqrt(sh.sqrt)
    requires L.Dot(l, normal) > 0.0 && intensity > 0.0 && L.LengthSqr(l) != 0.0
    ensures Falloff(sh, normal, l, intensity) > 0.0
  {
    var len := L.Length(l, sh.sqrt);
    L.DotSymmetric(l, normal);
    L.RootOfNonZero(len, L.LengthSqr(l));
    N.DotDiv(normal, l, len);
    L.DotSymmetric(normal, L.Normalize(l, sh.sqrt));
    QuotPositive(L.Dot(normal, l), len);
    var cos := L.Dot(L.Normalize(l, sh.sqrt), normal);
    assert cos * intensity > 0.0;
    QuotPositive(cos * intensity, L.LengthSqr(l));
  }

  /** The quotient of two positive numbers is positive. */
  lemma QuotPositive(a: real, b: real)
    requires a > 0.0 && b > 0.0
    ensures L.Quot(a, b) > 0.0
  {
  }
}
