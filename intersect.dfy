// Ray intersection tests of src/vector/Intersect.h: a ray is the segment
// from `start` to `end`, parametrised by t in [0, 1]. `hitSphere` and
// `hitCapsule` return false and leave the `Hit` record alone when there is no
// contact, and otherwise fill it in and return true; the model returns `None`
// or `Some(hit)`.

module Intersect {
  import L = Lanes

  datatype Option<T> = None | Some(value: T)

  datatype Ray = Ray(start: L.Vec4, end: L.Vec4)
  datatype Sphere = Sphere(origin: L.Vec4, radius: real)
  datatype Capsule = Capsule(start: L.Vec4, end: L.Vec4, radius: real)
  datatype Hit = Hit(point: L.Vec4, normal: L.Vec4, t: real)

  /** `rayVec`: the segment from the start of the ray to its end. */
  function Direction(ray: Ray): L.Vec4
  {
    L.Sub(ray.end, ray.start)
  }

  /** The point at parameter `t` along the ray, `start + rayVec * t`. */
  function PointAt(ray: Ray, t: real): L.Vec4
  {
    L.Add(ray.start, L.Scale(Direction(ray), t))
  }

  /** A point on the surface of a sphere. */
  predicate OnSphere(p: L.Vec4, sphere: Sphere)
  {
    L.LengthSqr(L.Sub(p, sphere.origin)) == sphere.radius * sphere.radius
  }

  // ---------------------------------------------------------------------
  // The quadratic A t^2 + B t + C = 0 both tests solve
  // ---------------------------------------------------------------------

  datatype Quadratic = Quadratic(a: real, b: real, c: real)

  function Value(q: Quadratic, t: real): real
  {
    q.a * t * t + q.b * t + q.c
  }

  /** `Dsqr = B * B - 4 * A * C`. */
  function Discriminant(q: Quadratic): real
  {
    q.b * q.b - 4.0 * q.a * q.c
  }

  /** `t0 = 0.5 * (-B - D) / A`. */
  function NearRoot(q: Quadratic, d: real): real
  {
    L.Quot(0.5 * (-q.b - d), q.a)
  }

  /** `t1 = 0.5 * (-B + D) / A`. */
  function FarRoot(q: Quadratic, d: real): real
  {
    L.Quot(0.5 * (-q.b + d), q.a)
  }

  /**
   * The quadratic of `|u + v t|^2 = r^2`: `A = v * v`, `B = 2 * v * u`,
   * `C = u * u - r * r`.
   */
  function Contact(u: L.Vec4, v: L.Vec4, r: real): Quadratic
  {
    Quadratic(L.Dot(v, v), L.Dot(L.ScaleLeft(2.0, v), u), L.Dot(u, u) - r * r)
  }

  /** The contact quadratic measures how far `u + v t` is from the radius. */
  lemma ContactValue(u: L.Vec4, v: L.Vec4, r: real, t: real)
    ensures L.LengthSqr(L.Add(u, L.Scale(v, t))) - r * r == Value(Contact(u, v, r), t)
  {
    var p := L.Add(u, L.Scale(v, t));
    assert p.x * p.x == u.x * u.x + 2.0 * v.x * u.x * t + v.x * v.x * t * t;
    assert p.y * p.y == u.y * u.y + 2.0 * v.y * u.y * t + v.y * v.y * t * t;
    assert p.z * p.z == u.z * u.z + 2.0 * v.z * u.z * t + v.z * v.z * t * t;
    assert p.w * p.w == u.w * u.w + 2.0 * v.w * u.w * t + v.w * v.w * t * t;
  }

  /** With `D * D == Dsqr`, the two roots factor the quadratic. */
  lemma {:induction false} RootsFactor(q: Quadratic, d: real, t: real)
    requires q.a != 0.0 && d * d == Discriminant(q)
    ensures Value(q, t) == q.a * (t - NearRoot(q, d)) * (t - FarRoot(q, d))
  {
    var t0, t1 := NearRoot(q, d), FarRoot(q, d);
    assert 2.0 * q.a * t0 == -q.b - d;
    assert 2.0 * q.a * t1 == -q.b + d;
    assert q.a * (t0 + t1) == -q.b;
    assert (2.0 * q.a * t0) * (2.0 * q.a * t1) == q.b * q.b - d * d;
    assert 4.0 * q.a * (q.a * t0 * t1) == 4.0 * q.a * q.c;
    L.Cancel(q.a * t0 * t1, q.c, 4.0 * q.a);
    calc {
      q.a * (t - t0) * (t - t1);
      q.a * t * t - q.a * (t0 + t1) * t + q.a * t0 * t1;
      Value(q, t);
    }
  }

  /** Any root of the quadratic is one of the two roots the tests compute. */
  lemma {:induction false} RootIsNearOrFar(q: Quadratic, d: real, t: real)
    requires q.a != 0.0 && d * d == Discriminant(q) && Value(q, t) == 0.0
    ensures t == NearRoot(q, d) || t == FarRoot(q, d)
  {
    RootsFactor(q, d, t);
    var t0, t1 := NearRoot(q, d), FarRoot(q, d);
    assert q.a * ((t - t0) * (t - t1)) == 0.0;
    assert (t - t0) * (t - t1) == 0.0;
  }

  /** Both computed roots solve the quadratic. */
  lemma RootsSolve(q: Quadratic, d: real)
    requires q.a != 0.0 && d * d == Discriminant(q)
    ensures Value(q, NearRoot(q, d)) == 0.0 && Value(q, FarRoot(q, d)) == 0.0
  {
    RootsFactor(q, d, NearRoot(q, d));
    RootsFactor(q, d, FarRoot(q, d));
  }

  /** With the `sqrt` parameter a square root, both computed roots solve the quadratic. */
  lemma ComputedRootSolves(sqrt: real -> real, q: Quadratic, t: real)
    requires L.IsSqrt(sqrt) && q.a != 0.0 && Discriminant(q) >= 0.0
    requires t == NearRoot(q, sqrt(Discriminant(q))) || t == FarRoot(q, sqrt(Discriminant(q)))
    ensures Value(q, t) == 0.0
  {
    assert sqrt(Discriminant(q)) * sqrt(Discriminant(q)) == Discriminant(q);
    RootsSolve(q, sqrt(Discriminant(q)));
  }

  /** A quadratic with a real root has a non-negative discriminant. */
  lemma {:induction false} RootMeansDiscriminant(q: Quadratic, t: real)
    requires Value(q, t) == 0.0
    ensures Discriminant(q) == (2.0 * q.a * t + q.b) * (2.0 * q.a * t + q.b)
    ensures Discriminant(q) >= 0.0
  {
    SquareNonNegative(2.0 * q.a * t + q.b);
    calc {
      (2.0 * q.a * t + q.b) * (2.0 * q.a * t + q.b);
      4.0 * q.a * (q.a * t * t + q.b * t) + q.b * q.b;
      4.0 * q.a * (Value(q, t) - q.c) + q.b * q.b;
      Discriminant(q);
    }
  }

  /** A square is never negative. */
  lemma SquareNonNegative(x: real)
    ensures x * x >= 0.0
  {
    if x < 0.0 {
      assert x * x == (-x) * (-x);
    }
  }

  /** With `A > 0` and `D >= 0`, `t0 <= t1`. */
  lemma RootsOrdered(q: Quadratic, d: real)
    requires q.a > 0.0 && d >= 0.0
    ensures NearRoot(q, d) <= FarRoot(q, d)
  {
    var t0, t1 := NearRoot(q, d), FarRoot(q, d);
    assert q.a * (t1 - t0) == d;
  }

  /**
   * The computed roots satisfy Vieta's relations: t0 + t1 = -B / A and
   * t1 - t0 = D / A. With A == 0 both are the division placeholder.
   */
  lemma RootsVieta(q: Quadratic, d: real)
    ensures q.a != 0.0 ==> (NearRoot(q, d) + FarRoot(q, d)) * q.a == -q.b
    ensures q.a != 0.0 ==> (FarRoot(q, d) - NearRoot(q, d)) * q.a == d
    ensures q.a == 0.0 ==> NearRoot(q, d) == 0.0 && FarRoot(q, d) == 0.0
  {
    if q.a != 0.0 {
      var t0, t1 := NearRoot(q, d), FarRoot(q, d);
      assert t0 * q.a == 0.5 * (-q.b - d) && t1 * q.a == 0.5 * (-q.b + d);
      assert (t0 + t1) * q.a == t0 * q.a + t1 * q.a;
      assert (t1 - t0) * q.a == t1 * q.a - t0 * q.a;
    }
  }

  /** A square root of a perfect square is that square's non-negative root. */
  lemma SqrtExact(sqrt: real -> real, x: real, r: real)
    requires L.IsSqrt(sqrt) && r >= 0.0 && r * r == x
    ensures sqrt(x) == r
  {
    var s := sqrt(x);
    assert s >= 0.0 && s * s == x;
    assert (s - r) * (s + r) == 0.0;
    if s + r == 0.0 {
      assert s == 0.0 && r == 0.0;
    }
  }

  // ---------------------------------------------------------------------
  // hitSphere
  // ---------------------------------------------------------------------

  /** The sphere test's quadratic in the ray parameter. */
  function SphereQuadratic(ray: Ray, sphere: Sphere): Quadratic
  {
    Contact(L.Sub(ray.start, sphere.origin), Direction(ray), sphere.radius)
  }

  /**
   * The sphere quadratic's coefficients: A is the squared length of the ray,
   * never negative, and C is negative exactly when the ray starts inside the
   * sphere.
   */
  lemma SphereQuadraticTerms(ray: Ray, sphere: Sphere)
    ensures var q := SphereQuadratic(ray, sphere);
            q.a == L.LengthSqr(Direction(ray)) && q.a >= 0.0
            && q.c == L.LengthSqr(L.Sub(ray.start, sphere.origin)) - sphere.radius * sphere.radius
            && (q.c < 0.0 <==> L.LengthSqr(L.Sub(ray.start, sphere.origin)) < sphere.radius * sphere.radius)
  {
  }

  /** The offset of a ray point from a centre is the start's offset plus the scaled direction. */
  lemma OffsetAt(ray: Ray, c: L.Vec4, t: real)
    ensures L.Sub(PointAt(ray, t), c) == L.Add(L.Sub(ray.start, c), L.Scale(Direction(ray), t))
  {
  }

  /** A ray point is on the sphere exactly when its parameter solves the sphere quadratic. */
  lemma OnSphereIsRoot(ray: Ray, sphere: Sphere, t: real)
    ensures OnSphere(PointAt(ray, t), sphere) <==> Value(SphereQuadratic(ray, sphere), t) == 0.0
  {
    OffsetAt(ray, sphere.origin, t);
    ContactValue(L.Sub(ray.start, sphere.origin), Direction(ray), sphere.radius, t);
  }

  /**
   * The normal at `point`: outward when the first root `t0` is ahead of the
   * start, inward (towards the origin) when the ray starts inside.
   */
  function SphereNormal(sqrt: real -> real, sphere: Sphere, point: L.Vec4, t0: real): L.Vec4
  {
    if t0 >= 0.0 then L.Normalize(L.Sub(point, sphere.origin), sqrt)
    else L.Normalize(L.Sub(sphere.origin, point), sqrt)
  }

  /**
   * `hitSphere` as written: `t` is `t0` when it lies in [0, 1], else `t1`
   * when that does, else no hit; the point is then computed from `t0`
   * whichever root was chosen. A zero-length ray (`A == 0`) makes both roots
   * NaN in IEEE arithmetic, so both range tests fail and there is no hit.
   */
  function HitSphereAsWritten(sqrt: real -> real, ray: Ray, sphere: Sphere): (r: Option<Hit>)
    ensures Discriminant(SphereQuadratic(ray, sphere)) < 0.0 ==> r == None
    ensures r.Some? ==> 0.0 <= r.value.t <= 1.0
    ensures r.Some? ==>
      var q := SphereQuadratic(ray, sphere);
      r.value.point == PointAt(ray, NearRoot(q, sqrt(Discriminant(q))))
  {
    var q := SphereQuadratic(ray, sphere);
    var dsqr := Discriminant(q);
    if dsqr < 0.0 || q.a == 0.0 then None
    else
      var d := sqrt(dsqr);
      var t0, t1 := NearRoot(q, d), FarRoot(q, d);
      var point := PointAt(ray, t0);
      if 0.0 <= t0 <= 1.0 then Some(Hit(point, SphereNormal(sqrt, sphere, point, t0), t0))
      else if 0.0 <= t1 <= 1.0 then Some(Hit(point, SphereNormal(sqrt, sphere, point, t0), t1))
      else None
  }

  /** A ray from the centre of the unit sphere `UnitSphere` to a point outside it. */
  const ExitRay := Ray(L.Vec4(0.0, 0.0, 0.0, 1.0), L.Vec4(2.0, 0.0, 0.0, 1.0))
  const UnitSphere := Sphere(L.Vec4(0.0, 0.0, 0.0, 1.0), 1.0)

  /** `ExitRay` has direction (2, 0, 0, 0) and starts at the centre of `UnitSphere`. */
  lemma ExitRayGeometry()
    ensures Direction(ExitRay) == L.Vec4(2.0, 0.0, 0.0, 0.0)
    ensures L.Dot(Direction(ExitRay), Direction(ExitRay)) == 4.0
    ensures L.Sub(ExitRay.start, UnitSphere.origin) == L.Zero
  {
  }

  /** The dot product with the zero vector is zero. */
  lemma DotZero(a: L.Vec4)
    ensures L.Dot(a, L.Zero) == 0.0
  {
  }

  /** The quadratic of `ExitRay` and `UnitSphere`: 4 t^2 - 1 = 0. */
  lemma ExitRayQuadratic()
    ensures SphereQuadratic(ExitRay, UnitSphere) == Quadratic(4.0, 0.0, -1.0)
  {
    ExitRayGeometry();
    DotZero(L.ScaleLeft(2.0, Direction(ExitRay)));
    DotZero(L.Zero);
  }

  /** The roots of 4 t^2 - 1 = 0 with `D = 4`: -0.5 and 0.5. */
  lemma ExitRayRoots()
    ensures Discriminant(Quadratic(4.0, 0.0, -1.0)) == 16.0
    ensures NearRoot(Quadratic(4.0, 0.0, -1.0), 4.0) == -0.5
    ensures FarRoot(Quadratic(4.0, 0.0, -1.0), 4.0) == 0.5
  {
  }

  /** The points of `ExitRay` at -0.5 and 0.5. */
  lemma ExitRayPoints()
    ensures PointAt(ExitRay, -0.5) == L.Vec4(-1.0, 0.0, 0.0, 1.0)
    ensures PointAt(ExitRay, 0.5) == L.Vec4(1.0, 0.0, 0.0, 1.0)
  {
    ExitRayPoint(-0.5);
    ExitRayPoint(0.5);
  }

  /** The point of `ExitRay` at `t` is (2t, 0, 0, 1). */
  lemma ExitRayPoint(t: real)
    ensures PointAt(ExitRay, t) == L.Vec4(2.0 * t, 0.0, 0.0, 1.0)
  {
    ExitRayGeometry();
  }

  /** When only the far root lies in [0, 1], the test as written reports `t1` with the point at `t0`. */
  lemma HitSphereAsWrittenFarRoot(sqrt: real -> real, ray: Ray, sphere: Sphere)
    requires var q := SphereQuadratic(ray, sphere);
             var d := sqrt(Discriminant(q));
             Discriminant(q) >= 0.0 && q.a != 0.0
             && !(0.0 <= NearRoot(q, d) <= 1.0) && 0.0 <= FarRoot(q, d) <= 1.0
    ensures var q := SphereQuadratic(ray, sphere);
            var d := sqrt(Discriminant(q));
            var r := HitSphereAsWritten(sqrt, ray, sphere);
            r.Some? && r.value.t == FarRoot(q, d) && r.value.point == PointAt(ray, NearRoot(q, d))
  {
  }

  /** When only the far root lies in [0, 1], the corrected test reports `t1` with the point at `t1`. */
  lemma HitSphereFarRoot(sqrt: real -> real, ray: Ray, sphere: Sphere)
    requires var q := SphereQuadratic(ray, sphere);
             var d := sqrt(Discriminant(q));
             Discriminant(q) >= 0.0 && q.a != 0.0
             && !(0.0 <= NearRoot(q, d) <= 1.0) && 0.0 <= FarRoot(q, d) <= 1.0
    ensures var q := SphereQuadratic(ray, sphere);
            var d := sqrt(Discriminant(q));
            var r := HitSphere(sqrt, ray, sphere);
            r.Some? && r.value.t == FarRoot(q, d) && r.value.point == PointAt(ray, FarRoot(q, d))
  {
  }

  /** The test as written on `ExitRay` and `UnitSphere` reports `t1 = 0.5` with the point at `t0 = -0.5`. */
  lemma ExitRayAsWritten(sqrt: real -> real)
    requires sqrt(16.0) == 4.0
    ensures var r := HitSphereAsWritten(sqrt, ExitRay, UnitSphere);
            r.Some? && r.value.t == 0.5 && r.value.point == L.Vec4(-1.0, 0.0, 0.0, 1.0)
  {
    ExitRayQuadratic();
    ExitRayRoots();
    ExitRayPoints();
    HitSphereAsWrittenFarRoot(sqrt, ExitRay, UnitSphere);
  }

  /**
   * A ray starting at the centre of a unit sphere and leaving through it:
   * `t0 = -0.5` is behind the start, so `t1 = 0.5` is chosen, but the
   * reported point is the one at `t0`, behind the ray and not at `hit.t`.
   * Only the root of 16 matters, and any square root gives 4 (`SqrtExact`).
   */
  lemma HitSphereAsWrittenMisplacesPoint(sqrt: real -> real)
    requires sqrt(16.0) == 4.0
    ensures var r := HitSphereAsWritten(sqrt, ExitRay, UnitSphere);
            r.Some? && r.value.t == 0.5 && r.value.point == L.Vec4(-1.0, 0.0, 0.0, 1.0)
            && r.value.point != PointAt(ExitRay, r.value.t)
  {
    ExitRayAsWritten(sqrt);
    ExitRayPoints();
  }

  /**
   * `hitSphere` with the point taken at the chosen parameter: the hit
   * record's point is always the ray point at `hit.t`.
   */
  function HitSphere(sqrt: real -> real, ray: Ray, sphere: Sphere): (r: Option<Hit>)
    ensures Discriminant(SphereQuadratic(ray, sphere)) < 0.0 ==> r == None
    ensures r.Some? ==> 0.0 <= r.value.t <= 1.0 && r.value.point == PointAt(ray, r.value.t)
    ensures r.Some? ==>
      var q := SphereQuadratic(ray, sphere);
      var d := sqrt(Discriminant(q));
      q.a != 0.0 && Discriminant(q) >= 0.0 && (r.value.t == NearRoot(q, d) || r.value.t == FarRoot(q, d))
  {
    var q := SphereQuadratic(ray, sphere);
    var dsqr := Discriminant(q);
    if dsqr < 0.0 || q.a == 0.0 then None
    else
      var d := sqrt(dsqr);
      var t0, t1 := NearRoot(q, d), FarRoot(q, d);
      if 0.0 <= t0 <= 1.0 then
        var point := PointAt(ray, t0);
        Some(Hit(point, SphereNormal(sqrt, sphere, point, t0), t0))
      else if 0.0 <= t1 <= 1.0 then
        var point := PointAt(ray, t1);
        Some(Hit(point, SphereNormal(sqrt, sphere, point, t0), t1))
      else None
  }

  /**
   * The two sphere tests agree on whether there is a hit and on its t; they
   * differ only in the point and the normal.
   */
  lemma HitSphereAgreesOnT(sqrt: real -> real, ray: Ray, sphere: Sphere)
    ensures var w, c := HitSphereAsWritten(sqrt, ray, sphere), HitSphere(sqrt, ray, sphere);
            w.Some? == c.Some? && (c.Some? ==> w.value.t == c.value.t)
  {
  }

  /** With a true square root, a non-zero vector's direction has a positive dot product with it. */
  lemma NormalizeFaces(sqrt: real -> real, v: L.Vec4)
    requires L.IsSqrt(sqrt) && L.LengthSqr(v) != 0.0
    ensures L.Dot(v, L.Normalize(v, sqrt)) > 0.0
  {
    var l := L.Length(v, sqrt);
    L.RootOfNonZero(l, L.LengthSqr(v));
    DotDiv(v, v, l);
    assert L.Quot(L.Dot(v, v), l) * l == L.Dot(v, v);
  }

  /**
   * The sphere normal is a unit vector that points out of the sphere at the
   * hit point when `t0 >= 0` (the ray starts outside) and into it otherwise.
   */
  lemma SphereNormalFacing(sqrt: real -> real, sphere: Sphere, point: L.Vec4, t0: real)
    requires L.IsSqrt(sqrt) && L.LengthSqr(L.Sub(point, sphere.origin)) != 0.0
    ensures L.LengthSqr(SphereNormal(sqrt, sphere, point, t0)) == 1.0
    ensures t0 >= 0.0 ==> L.Dot(SphereNormal(sqrt, sphere, point, t0), L.Sub(point, sphere.origin)) > 0.0
    ensures t0 < 0.0 ==> L.Dot(SphereNormal(sqrt, sphere, point, t0), L.Sub(point, sphere.origin)) < 0.0
  {
    var v, w := L.Sub(point, sphere.origin), L.Sub(sphere.origin, point);
    var n := SphereNormal(sqrt, sphere, point, t0);
    if t0 >= 0.0 {
      assert n == L.Normalize(v, sqrt);
      UnitFacing(sqrt, v);
    } else {
      assert n == L.Normalize(w, sqrt);
      assert w == L.Scale(v, -1.0);
      NegatedFacing(sqrt, v, w);
    }
  }

  /** The normalised `v` is a unit vector with a positive dot product with `v`. */
  lemma UnitFacing(sqrt: real -> real, v: L.Vec4)
    requires L.IsSqrt(sqrt) && L.LengthSqr(v) != 0.0
    ensures L.LengthSqr(L.Normalize(v, sqrt)) == 1.0
    ensures L.Dot(L.Normalize(v, sqrt), v) > 0.0
  {
    L.NormalizeIsUnit(v, sqrt);
    NormalizeFaces(sqrt, v);
    L.DotSymmetric(v, L.Normalize(v, sqrt));
  }

  /** The normalised `-v` is a unit vector with a negative dot product with `v`. */
  lemma NegatedFacing(sqrt: real -> real, v: L.Vec4, w: L.Vec4)
    requires L.IsSqrt(sqrt) && L.LengthSqr(v) != 0.0 && w == L.Scale(v, -1.0)
    ensures L.LengthSqr(L.Normalize(w, sqrt)) == 1.0
    ensures L.Dot(L.Normalize(w, sqrt), v) < 0.0
  {
    var n := L.Normalize(w, sqrt);
    L.ScaledLengthSqr(v, -1.0);
    assert L.LengthSqr(w) == L.LengthSqr(v);
    UnitFacing(sqrt, w);
    L.DotScale(n, v, -1.0);
  }

  /** A reported hit lies on the sphere. */
  lemma HitSphereOnSurface(sqrt: real -> real, ray: Ray, sphere: Sphere)
    requires L.IsSqrt(sqrt)
    ensures HitSphere(sqrt, ray, sphere).Some? ==> OnSphere(HitSphere(sqrt, ray, sphere).value.point, sphere)
  {
    var q := SphereQuadratic(ray, sphere);
    var r := HitSphere(sqrt, ray, sphere);
    if r.Some? {
      var t := r.value.t;
      var d := sqrt(Discriminant(q));
      L.SqrtAt(sqrt, Discriminant(q));
      RootsSolve(q, d);
      assert Value(q, t) == 0.0;
      OnSphereIsRoot(ray, sphere, t);
    }
  }

  /**
   * The reported hit is the first contact: for a ray of non-zero length,
   * any parameter in [0, 1] whose point is on the sphere makes the test
   * succeed with `t` no greater than it.
   */
  lemma {:induction false} HitSphereIsFirstContact(sqrt: real -> real, ray: Ray, sphere: Sphere, s: real)
    requires L.IsSqrt(sqrt) && L.LengthSqr(Direction(ray)) != 0.0
    requires 0.0 <= s <= 1.0 && OnSphere(PointAt(ray, s), sphere)
    ensures HitSphere(sqrt, ray, sphere).Some?
    ensures HitSphere(sqrt, ray, sphere).value.t <= s
  {
    var q := SphereQuadratic(ray, sphere);
    var v := Direction(ray);
    assert q.a == L.LengthSqr(v);
    OnSphereIsRoot(ray, sphere, s);
    RootMeansDiscriminant(q, s);
    var d := sqrt(Discriminant(q));
    L.SqrtAt(sqrt, Discriminant(q));
    RootIsNearOrFar(q, d, s);
    RootsOrdered(q, d);
  }

  /** Every test that misses, on a ray of non-zero length, has no point of the segment on the sphere. */
  lemma HitSphereMissIsExact(sqrt: real -> real, ray: Ray, sphere: Sphere, s: real)
    requires L.IsSqrt(sqrt) && L.LengthSqr(Direction(ray)) != 0.0 && 0.0 <= s <= 1.0
    requires HitSphere(sqrt, ray, sphere) == None
    ensures !OnSphere(PointAt(ray, s), sphere)
  {
    if OnSphere(PointAt(ray, s), sphere) {
      HitSphereIsFirstContact(sqrt, ray, sphere, s);
    }
  }

  // ---------------------------------------------------------------------
  // hitCapsule
  // ---------------------------------------------------------------------

  /** `capsuleVec`: the axis from the start cap to the end cap. */
  function Axis(capsule: Capsule): L.Vec4
  {
    L.Sub(capsule.end, capsule.start)
  }

  /**
   * The cylinder quadratic: the rejections of the ray direction and of the
   * ray start (relative to `capsule.start`) from the axis.
   */
  function CylinderQuadratic(ray: Ray, capsule: Capsule): Quadratic
  {
    var axis := Axis(capsule);
    Contact(L.Reject(axis, L.Sub(ray.start, capsule.start)), L.Reject(axis, Direction(ray)), capsule.radius)
  }

  /**
   * The cylinder quadratic's coefficients: A is the squared length of the
   * direction's rejection from the axis, never negative, and C is negative
   * exactly when the ray starts closer to the axis than the radius.
   */
  lemma CylinderQuadraticTerms(ray: Ray, capsule: Capsule)
    ensures var q := CylinderQuadratic(ray, capsule);
            var u := L.Reject(Axis(capsule), L.Sub(ray.start, capsule.start));
            q.a == L.LengthSqr(L.Reject(Axis(capsule), Direction(ray))) && q.a >= 0.0
            && q.c == L.LengthSqr(u) - capsule.radius * capsule.radius
            && (q.c < 0.0 <==> L.LengthSqr(u) < capsule.radius * capsule.radius)
  {
  }

  /** `t = t0 >= 0 ? t0 : t1`. */
  function CylinderParameter(sqrt: real -> real, ray: Ray, capsule: Capsule): real
  {
    var q := CylinderQuadratic(ray, capsule);
    var d := sqrt(Discriminant(q));
    var t0 := NearRoot(q, d);
    if t0 >= 0.0 then t0 else FarRoot(q, d)
  }

  /**
   * With a true square root and a solvable quadratic that has roots, `t` is
   * a root of the cylinder quadratic, and it is non-negative exactly when
   * the far root is: the first root ahead of the ray start when one is.
   */
  lemma CylinderParameterChoice(sqrt: real -> real, ray: Ray, capsule: Capsule)
    requires L.IsSqrt(sqrt)
    requires CylinderQuadratic(ray, capsule).a != 0.0 && Discriminant(CylinderQuadratic(ray, capsule)) >= 0.0
    ensures var q := CylinderQuadratic(ray, capsule);
            var d := sqrt(Discriminant(q));
            var t := CylinderParameter(sqrt, ray, capsule);
            (t == NearRoot(q, d) || t == FarRoot(q, d)) && Value(q, t) == 0.0
            && (t >= 0.0 <==> FarRoot(q, d) >= 0.0)
            && (t >= 0.0 ==> t <= FarRoot(q, d))
  {
    var q := CylinderQuadratic(ray, capsule);
    var d := sqrt(Discriminant(q));
    CylinderQuadraticTerms(ray, capsule);
    L.SqrtAt(sqrt, Discriminant(q));
    RootsOrdered(q, d);
    ComputedRootSolves(sqrt, q, CylinderParameter(sqrt, ray, capsule));
  }

  /** The normal on the cylinder: the rejection of the offset from `capsule.start`, signed by `t0`. */
  function CylinderNormal(sqrt: real -> real, capsule: Capsule, point: L.Vec4, t0: real): L.Vec4
  {
    var axis := Axis(capsule);
    if t0 >= 0.0 then L.Normalize(L.Reject(axis, L.Sub(point, capsule.start)), sqrt)
    else L.Normalize(L.Reject(axis, L.Sub(capsule.start, point)), sqrt)
  }

  /** Past the end cap: `capsuleVec * (hitPoint - capsule.end) > 0`. */
  predicate BeyondEnd(capsule: Capsule, p: L.Vec4)
  {
    L.Dot(Axis(capsule), L.Sub(p, capsule.end)) > 0.0
  }

  /** Before the start cap: `capsuleVec * (hitPoint - capsule.start) < 0`. */
  predicate BeforeStart(capsule: Capsule, p: L.Vec4)
  {
    L.Dot(Axis(capsule), L.Sub(p, capsule.start)) < 0.0
  }

  /**
   * What `hitCapsule` reports: false, or true with a hit record. When it
   * divides zero by zero (an axis of zero length, or a ray parallel to the
   * axis, which makes A == 0) t is NaN in IEEE arithmetic, no comparison on
   * it holds, and the test returns true with t, point and normal all NaN:
   * `NaNHit` stands for that record.
   */
  datatype Report = Missed | Reported(hit: Hit) | NaNHit

  /** The sphere test's answer passed on by the cap branches. */
  function FromSphere(h: Option<Hit>): Report
  {
    if h.Some? then Reported(h.value) else Missed
  }

  /**
   * The cases in which `hitCapsule` divides zero by zero: `Reject` divides by
   * the axis' squared length, and `t0`, `t1` by A.
   */
  predicate Unsolvable(ray: Ray, capsule: Capsule)
  {
    L.LengthSqr(Axis(capsule)) == 0.0 || CylinderQuadratic(ray, capsule).a == 0.0
  }

  /** Where `hitCapsule` goes once it has solved the cylinder quadratic. */
  datatype Branch =
    | NoRoots                  // `Dsqr < 0`: returns false
    | Unordered                // t is NaN: returns true with a NaN record
    | Cap(sphere: Sphere)      // handed to `hitSphere` at that end
    | OutOfRange               // t outside [0, 1]: returns false
    | Side(hit: Hit)           // the side of the cylinder, at t

  /**
   * The branch logic of `hitCapsule`. A zero axis makes `Dsqr` NaN and A == 0
   * makes `Dsqr` zero and t NaN; either way every later comparison fails and
   * the test falls through to its final `return true`.
   */
  function CapsuleBranch(sqrt: real -> real, ray: Ray, capsule: Capsule): (b: Branch)
    ensures b == Unordered <==> Unsolvable(ray, capsule)
    ensures !Unsolvable(ray, capsule) && Discriminant(CylinderQuadratic(ray, capsule)) < 0.0 ==> b == NoRoots
    ensures b.Cap? ==>
              var p := PointAt(ray, CylinderParameter(sqrt, ray, capsule));
              (BeyondEnd(capsule, p) && b.sphere == Sphere(capsule.end, capsule.radius))
              || (!BeyondEnd(capsule, p) && BeforeStart(capsule, p) && b.sphere == Sphere(capsule.start, capsule.radius))
    ensures b.Side? ==> 0.0 <= b.hit.t <= 1.0 && b.hit.point == PointAt(ray, b.hit.t)
                        && !BeyondEnd(capsule, b.hit.point) && !BeforeStart(capsule, b.hit.point)
  {
    var q := CylinderQuadratic(ray, capsule);
    var dsqr := Discriminant(q);
    SquareNonNegative(q.b);
    if L.LengthSqr(Axis(capsule)) == 0.0 then Unordered
    else if dsqr < 0.0 then NoRoots
    else if q.a == 0.0 then Unordered
    else
      var t0 := NearRoot(q, sqrt(dsqr));
      var t := CylinderParameter(sqrt, ray, capsule);
      var hitPoint := PointAt(ray, t);
      if BeyondEnd(capsule, hitPoint) then Cap(Sphere(capsule.end, capsule.radius))
      else if BeforeStart(capsule, hitPoint) then Cap(Sphere(capsule.start, capsule.radius))
      else if t < 0.0 || t > 1.0 then OutOfRange
      else Side(Hit(hitPoint, CylinderNormal(sqrt, capsule, hitPoint, t0), t))
  }

  /**
   * `hitCapsule` as written: solve for the infinite cylinder; a point past
   * either end is handed to that end's `hitSphere`, which places the point
   * at the near root (`HitSphereAsWritten`); otherwise the cylinder point is
   * a hit when its parameter lies in [0, 1].
   */
  function HitCapsuleAsWritten(sqrt: real -> real, ray: Ray, capsule: Capsule): (r: Report)
    ensures r == NaNHit <==> Unsolvable(ray, capsule)
    ensures r.Reported? ==> 0.0 <= r.hit.t <= 1.0
    ensures CapsuleBranch(sqrt, ray, capsule).Cap? ==>
              r == FromSphere(HitSphereAsWritten(sqrt, ray, CapsuleBranch(sqrt, ray, capsule).sphere))
  {
    match CapsuleBranch(sqrt, ray, capsule)
    case NoRoots => Missed
    case Unordered => NaNHit
    case Cap(sphere) => FromSphere(HitSphereAsWritten(sqrt, ray, sphere))
    case OutOfRange => Missed
    case Side(hit) => Reported(hit)
  }

  /**
   * `hitCapsule` with the end caps handed to the corrected sphere test: a
   * reported hit is always the ray point at its parameter.
   */
  function HitCapsule(sqrt: real -> real, ray: Ray, capsule: Capsule): (r: Report)
    ensures r == NaNHit <==> Unsolvable(ray, capsule)
    ensures !Unsolvable(ray, capsule) && Discriminant(CylinderQuadratic(ray, capsule)) < 0.0 ==> r == Missed
    ensures r.Reported? ==> 0.0 <= r.hit.t <= 1.0 && r.hit.point == PointAt(ray, r.hit.t)
  {
    match CapsuleBranch(sqrt, ray, capsule)
    case NoRoots => Missed
    case Unordered => NaNHit
    case Cap(sphere) => FromSphere(HitSphere(sqrt, ray, sphere))
    case OutOfRange => Missed
    case Side(hit) => Reported(hit)
  }

  /**
   * The end caps: with a solvable cylinder quadratic that has roots, a
   * cylinder point past the end gives the sphere test at `capsule.end`, and
   * one before the start (and not past the end) the sphere test at
   * `capsule.start`; `hitSphere` as written in the test as written, the
   * corrected sphere test in the corrected one.
   */
  lemma HitCapsuleCaps(sqrt: real -> real, ray: Ray, capsule: Capsule)
    requires !Unsolvable(ray, capsule) && Discriminant(CylinderQuadratic(ray, capsule)) >= 0.0
    ensures var p := PointAt(ray, CylinderParameter(sqrt, ray, capsule));
            var e := Sphere(capsule.end, capsule.radius);
            BeyondEnd(capsule, p) ==>
              HitCapsuleAsWritten(sqrt, ray, capsule) == FromSphere(HitSphereAsWritten(sqrt, ray, e))
              && HitCapsule(sqrt, ray, capsule) == FromSphere(HitSphere(sqrt, ray, e))
    ensures var p := PointAt(ray, CylinderParameter(sqrt, ray, capsule));
            var s := Sphere(capsule.start, capsule.radius);
            !BeyondEnd(capsule, p) && BeforeStart(capsule, p) ==>
              HitCapsuleAsWritten(sqrt, ray, capsule) == FromSphere(HitSphereAsWritten(sqrt, ray, s))
              && HitCapsule(sqrt, ray, capsule) == FromSphere(HitSphere(sqrt, ray, s))
  {
  }

  /** The rejection of a multiple of the axis from a non-zero axis is zero. */
  lemma RejectAlong(t: L.Vec4, k: real)
    requires L.LengthSqr(t) != 0.0
    ensures L.Reject(t, L.Scale(t, k)) == L.Zero
  {
    L.DotScale(t, t, k);
    assert L.Dot(t, L.Scale(t, k)) / L.LengthSqr(t) == k;
  }

  /**
   * A ray parallel to the axis (its direction a multiple of the axis) makes
   * A == 0, so both versions of the test report the NaN record.
   */
  lemma ParallelRayIsUnsolvable(sqrt: real -> real, ray: Ray, capsule: Capsule, k: real)
    requires Direction(ray) == L.Scale(Axis(capsule), k)
    ensures HitCapsule(sqrt, ray, capsule) == NaNHit
    ensures HitCapsuleAsWritten(sqrt, ray, capsule) == NaNHit
  {
    assert Unsolvable(ray, capsule) by {
      if L.LengthSqr(Axis(capsule)) != 0.0 {
        var v := L.Reject(Axis(capsule), Direction(ray));
        assert CylinderQuadratic(ray, capsule).a == L.Dot(v, v);
        RejectAlong(Axis(capsule), k);
        DotZero(L.Zero);
      }
    }
  }

  /** The rejection of a point from an axis along z keeps its x, y and w lanes. */
  lemma RejectFromZAxis(axis: L.Vec4, p: L.Vec4)
    requires axis.x == 0.0 && axis.y == 0.0 && axis.w == 0.0 && axis.z != 0.0
    ensures L.Reject(axis, p) == L.Vec4(p.x, p.y, 0.0, p.w)
  {
    var c := axis.z;
    assert L.LengthSqr(axis) == c * c;
    assert L.Dot(axis, p) == c * p.z;
    assert (c * p.z) / (c * c) * c == p.z;
    assert L.Project(axis, p) == L.Vec4(0.0, 0.0, p.z, 0.0);
  }

  /** A ray from the centre of the end cap of `UnitCapsule` out past that cap. */
  const CapRay := Ray(L.Vec4(0.0, 0.0, 1.0, 1.0), L.Vec4(3.0, 0.0, 5.0, 1.0))

  /** The capsule from the origin to (0, 0, 1) of radius 1. */
  const UnitCapsule := Capsule(L.Vec4(0.0, 0.0, 0.0, 1.0), L.Vec4(0.0, 0.0, 1.0, 1.0), 1.0)

  /** The point of `CapRay` at `t` is (3t, 0, 1 + 4t, 1). */
  lemma CapRayPoint(t: real)
    ensures PointAt(CapRay, t) == L.Vec4(3.0 * t, 0.0, 1.0 + 4.0 * t, 1.0)
  {
    CapRayDirection();
    RayPointLanes(CapRay, t, 0.0, 0.0, 1.0, 1.0, 3.0, 0.0, 4.0, 0.0);
  }

  /** The point of a ray at `t`, lane by lane, from its start and direction. */
  lemma RayPointLanes(ray: Ray, t: real, sx: real, sy: real, sz: real, sw: real, dx: real, dy: real, dz: real, dw: real)
    requires ray.start == L.Vec4(sx, sy, sz, sw) && Direction(ray) == L.Vec4(dx, dy, dz, dw)
    ensures PointAt(ray, t) == L.Vec4(sx + dx * t, sy + dy * t, sz + dz * t, sw + dw * t)
  {
    assert L.Scale(Direction(ray), t) == L.Vec4(dx * t, dy * t, dz * t, dw * t);
  }

  /** `CapRay` has direction (3, 0, 4, 0) and starts at the centre of `UnitCapsule`'s end cap. */
  lemma CapRayGeometry()
    ensures Direction(CapRay) == L.Vec4(3.0, 0.0, 4.0, 0.0)
    ensures L.Dot(Direction(CapRay), Direction(CapRay)) == 25.0
    ensures L.Sub(CapRay.start, UnitCapsule.end) == L.Zero
  {
    CapRayDirection();
    var v := L.Vec4(3.0, 0.0, 4.0, 0.0);
    assert L.Dot(v, v) == 25.0;
  }

  /** `CapRay`'s direction, lane by lane. */
  lemma CapRayDirection()
    ensures Direction(CapRay) == L.Vec4(3.0, 0.0, 4.0, 0.0)
  {
  }

  /** `UnitCapsule`'s axis is the unit z axis. */
  lemma UnitCapsuleAxis()
    ensures Axis(UnitCapsule) == L.Vec4(0.0, 0.0, 1.0, 0.0)
  {
  }

  /** The axis of `UnitCapsule` has length 1. */
  lemma UnitCapsuleAxisLength()
    ensures L.LengthSqr(Axis(UnitCapsule)) == 1.0
  {
    UnitCapsuleAxis();
  }

  /** `CapRay` starts one unit up the axis of `UnitCapsule`. */
  lemma CapRayOffset()
    ensures L.Sub(CapRay.start, UnitCapsule.start) == L.Vec4(0.0, 0.0, 1.0, 0.0)
  {
  }

  /** The rejections `hitCapsule` takes for `CapRay` and `UnitCapsule`: the start's is zero, the direction's (3, 0, 0, 0). */
  lemma CapRayRejections()
    ensures L.Reject(Axis(UnitCapsule), L.Sub(CapRay.start, UnitCapsule.start)) == L.Zero
    ensures L.Reject(Axis(UnitCapsule), Direction(CapRay)) == L.Vec4(3.0, 0.0, 0.0, 0.0)
  {
    var axis, offset, direction := Axis(UnitCapsule), L.Sub(CapRay.start, UnitCapsule.start), Direction(CapRay);
    UnitCapsuleAxis();
    CapRayOffset();
    CapRayDirection();
    RejectFromZAxis(axis, offset);
    RejectFromZAxis(axis, direction);
  }

  /** The cylinder quadratic is the contact quadratic of the two rejections. */
  lemma CylinderQuadraticOf(ray: Ray, capsule: Capsule, u: L.Vec4, v: L.Vec4)
    requires L.Reject(Axis(capsule), L.Sub(ray.start, capsule.start)) == u
    requires L.Reject(Axis(capsule), Direction(ray)) == v
    ensures CylinderQuadratic(ray, capsule) == Contact(u, v, capsule.radius)
  {
  }

  /** The contact quadratic of a unit circle around the start and a direction (3, 0, 0, 0). */
  lemma CapRayContact()
    ensures Contact(L.Zero, L.Vec4(3.0, 0.0, 0.0, 0.0), 1.0) == Quadratic(9.0, 0.0, -1.0)
  {
    var v := L.Vec4(3.0, 0.0, 0.0, 0.0);
    var q := Contact(L.Zero, v, 1.0);
    assert q.a == 9.0 by { assert q.a == L.Dot(v, v); }
    assert q.b == 0.0 by { DotZero(L.ScaleLeft(2.0, v)); }
    assert q.c == -1.0 by { DotZero(L.Zero); }
  }

  /** The cylinder quadratic of `CapRay` and `UnitCapsule`: 9 t^2 - 1 = 0. */
  lemma CapRayCylinder()
    ensures CylinderQuadratic(CapRay, UnitCapsule) == Quadratic(9.0, 0.0, -1.0)
  {
    CapRayRejections();
    CylinderQuadraticOf(CapRay, UnitCapsule, L.Zero, L.Vec4(3.0, 0.0, 0.0, 0.0));
    CapRayContact();
  }

  /** The sphere quadratic of `CapRay` and the end cap of `UnitCapsule`: 25 t^2 - 1 = 0. */
  lemma CapRaySphere()
    ensures SphereQuadratic(CapRay, Sphere(UnitCapsule.end, 1.0)) == Quadratic(25.0, 0.0, -1.0)
  {
    CapRayGeometry();
    DotZero(L.ScaleLeft(2.0, Direction(CapRay)));
    DotZero(L.Zero);
  }

  /** `CapRay` is not parallel to the axis of `UnitCapsule`, and that axis is not zero. */
  lemma CapRaySolvable()
    ensures !Unsolvable(CapRay, UnitCapsule)
  {
    CapRayCylinder();
    UnitCapsuleAxisLength();
  }

  /** The cylinder quadratic of `CapRay` has two roots. */
  lemma CapRayDiscriminant()
    ensures Discriminant(CylinderQuadratic(CapRay, UnitCapsule)) == 36.0
  {
    CapRayCylinder();
  }

  /** A cylinder quadratic 9 t^2 - 1 = 0 gives the far root 1/3 as the parameter, the near one being -1/3. */
  lemma ThirdParameter(sqrt: real -> real, ray: Ray, capsule: Capsule)
    requires sqrt(36.0) == 6.0
    requires CylinderQuadratic(ray, capsule) == Quadratic(9.0, 0.0, -1.0)
    ensures CylinderParameter(sqrt, ray, capsule) * 3.0 == 1.0
  {
    var q := Quadratic(9.0, 0.0, -1.0);
    CylinderParameterOf(sqrt, ray, capsule, q);
    assert Discriminant(q) == 36.0;
    CylinderRoots(sqrt(36.0), CylinderParameter(sqrt, ray, capsule));
  }

  /** The cylinder parameter depends on the ray and the capsule only through their quadratic. */
  lemma CylinderParameterOf(sqrt: real -> real, ray: Ray, capsule: Capsule, q: Quadratic)
    requires CylinderQuadratic(ray, capsule) == q
    ensures var d := sqrt(Discriminant(q));
            CylinderParameter(sqrt, ray, capsule) == if NearRoot(q, d) >= 0.0 then NearRoot(q, d) else FarRoot(q, d)
  {
  }

  /** With D = 6 the roots of 9 t^2 - 1 = 0 are -1/3 and 1/3, and the parameter the far one. */
  lemma CylinderRoots(d: real, t: real)
    requires d == 6.0
    requires t == (if NearRoot(Quadratic(9.0, 0.0, -1.0), d) >= 0.0 then NearRoot(Quadratic(9.0, 0.0, -1.0), d)
                   else FarRoot(Quadratic(9.0, 0.0, -1.0), d))
    ensures t * 3.0 == 1.0
  {
    var q := Quadratic(9.0, 0.0, -1.0);
    assert NearRoot(q, d) * 9.0 == -3.0;
    assert FarRoot(q, d) * 9.0 == 3.0;
  }

  /** The point of `CapRay` at 1/3 lies past the end cap of `UnitCapsule`. */
  lemma CapRayThirdPastEnd(t: real)
    requires t * 3.0 == 1.0
    ensures BeyondEnd(UnitCapsule, PointAt(CapRay, t))
  {
    CapRayPoint(t);
    UnitCapsuleAxis();
    var d := L.Sub(PointAt(CapRay, t), UnitCapsule.end);
    assert d.z == 4.0 * t;
    DotWithZAxis(Axis(UnitCapsule), d);
  }

  /** The dot product with the unit z axis is the z lane. */
  lemma DotWithZAxis(axis: L.Vec4, v: L.Vec4)
    requires axis == L.Vec4(0.0, 0.0, 1.0, 0.0)
    ensures L.Dot(axis, v) == v.z
  {
  }

  /** The cylinder point of `CapRay` (t = 1/3) lies past the end cap of `UnitCapsule`. */
  lemma CapRayPastEnd(sqrt: real -> real)
    requires sqrt(36.0) == 6.0
    ensures !Unsolvable(CapRay, UnitCapsule)
    ensures Discriminant(CylinderQuadratic(CapRay, UnitCapsule)) == 36.0
    ensures BeyondEnd(UnitCapsule, PointAt(CapRay, CylinderParameter(sqrt, CapRay, UnitCapsule)))
  {
    CapRaySolvable();
    CapRayDiscriminant();
    CapRayCylinder();
    ThirdParameter(sqrt, CapRay, UnitCapsule);
    CapRayThirdPastEnd(CylinderParameter(sqrt, CapRay, UnitCapsule));
  }

  /** With D = 10 the roots of 25 t^2 - 1 = 0 are -1/5 and 1/5. */
  lemma EndSphereRoots(d: real)
    requires d == 10.0
    ensures NearRoot(Quadratic(25.0, 0.0, -1.0), d) * 5.0 == -1.0
    ensures FarRoot(Quadratic(25.0, 0.0, -1.0), d) * 5.0 == 1.0
  {
  }

  /** The end cap's sphere test as written on `CapRay`: t1 = 1/5 with the point at t0 = -1/5. */
  lemma CapRayEndSphereAsWritten(sqrt: real -> real)
    requires sqrt(100.0) == 10.0
    ensures var q := Quadratic(25.0, 0.0, -1.0);
            var w := HitSphereAsWritten(sqrt, CapRay, Sphere(UnitCapsule.end, 1.0));
            w.Some? && w.value.t == FarRoot(q, 10.0) && w.value.point == PointAt(CapRay, NearRoot(q, 10.0))
  {
    CapRaySphere();
    EndSphereRoots(10.0);
    HitSphereAsWrittenFarRoot(sqrt, CapRay, Sphere(UnitCapsule.end, 1.0));
  }

  /** The corrected sphere test on the end cap: t1 = 1/5 with the point at t1. */
  lemma CapRayEndSphere(sqrt: real -> real)
    requires sqrt(100.0) == 10.0
    ensures var q := Quadratic(25.0, 0.0, -1.0);
            var c := HitSphere(sqrt, CapRay, Sphere(UnitCapsule.end, 1.0));
            c.Some? && c.value.t == FarRoot(q, 10.0) && c.value.point == PointAt(CapRay, FarRoot(q, 10.0))
  {
    CapRaySphere();
    EndSphereRoots(10.0);
    HitSphereFarRoot(sqrt, CapRay, Sphere(UnitCapsule.end, 1.0));
  }

  /**
   * `CapRay` starts at the centre of `UnitCapsule`'s end cap and leaves
   * through it: its cylinder point lies past the end, so both versions hand
   * it to the end cap's sphere test, which chooses t = 1/5. The test as
   * written reports the point at t = -1/5, (-0.6, 0, 0.2), behind the ray;
   * the corrected one reports (0.6, 0, 1.8), the ray point at 1/5.
   */
  lemma HitCapsuleAsWrittenMisplacesPoint(sqrt: real -> real)
    requires sqrt(36.0) == 6.0 && sqrt(100.0) == 10.0
    ensures var w, c := HitCapsuleAsWritten(sqrt, CapRay, UnitCapsule), HitCapsule(sqrt, CapRay, UnitCapsule);
            w.Reported? && c.Reported? && w.hit.t == c.hit.t && c.hit.t * 5.0 == 1.0
            && c.hit.point == PointAt(CapRay, c.hit.t) && w.hit.point == PointAt(CapRay, -c.hit.t)
            && w.hit.point != PointAt(CapRay, w.hit.t)
  {
    var q := Quadratic(25.0, 0.0, -1.0);
    CapRayCapsuleAsWritten(sqrt);
    CapRayCapsule(sqrt);
    EndSphereRoots(10.0);
    CapRayPoint(NearRoot(q, 10.0));
    CapRayPoint(FarRoot(q, 10.0));
  }

  /** `hitCapsule` as written on `CapRay`: the end sphere's t1 with the point at its t0. */
  lemma CapRayCapsuleAsWritten(sqrt: real -> real)
    requires sqrt(36.0) == 6.0 && sqrt(100.0) == 10.0
    ensures var q := Quadratic(25.0, 0.0, -1.0);
            var w := HitCapsuleAsWritten(sqrt, CapRay, UnitCapsule);
            w.Reported? && w.hit.t == FarRoot(q, 10.0) && w.hit.point == PointAt(CapRay, NearRoot(q, 10.0))
  {
    var q := Quadratic(25.0, 0.0, -1.0);
    CapRayPastEnd(sqrt);
    CapRayEndSphereAsWritten(sqrt);
    CapRayEndSphere(sqrt);
    CapHits(sqrt, CapRay, UnitCapsule, NearRoot(q, 10.0), FarRoot(q, 10.0));
  }

  /** The corrected `hitCapsule` on `CapRay`: the end sphere's t1 with the point at t1. */
  lemma CapRayCapsule(sqrt: real -> real)
    requires sqrt(36.0) == 6.0 && sqrt(100.0) == 10.0
    ensures var q := Quadratic(25.0, 0.0, -1.0);
            var c := HitCapsule(sqrt, CapRay, UnitCapsule);
            c.Reported? && c.hit.t == FarRoot(q, 10.0) && c.hit.point == PointAt(CapRay, FarRoot(q, 10.0))
  {
    var q := Quadratic(25.0, 0.0, -1.0);
    CapRayPastEnd(sqrt);
    CapRayEndSphereAsWritten(sqrt);
    CapRayEndSphere(sqrt);
    CapHits(sqrt, CapRay, UnitCapsule, NearRoot(q, 10.0), FarRoot(q, 10.0));
  }

  /** Past the end, both versions report the end sphere's hits. */
  lemma CapHits(sqrt: real -> real, ray: Ray, capsule: Capsule, near: real, far: real)
    requires !Unsolvable(ray, capsule) && Discriminant(CylinderQuadratic(ray, capsule)) >= 0.0
    requires BeyondEnd(capsule, PointAt(ray, CylinderParameter(sqrt, ray, capsule)))
    requires var w := HitSphereAsWritten(sqrt, ray, Sphere(capsule.end, capsule.radius));
             w.Some? && w.value.t == far && w.value.point == PointAt(ray, near)
    requires var c := HitSphere(sqrt, ray, Sphere(capsule.end, capsule.radius));
             c.Some? && c.value.t == far && c.value.point == PointAt(ray, far)
    ensures var w, c := HitCapsuleAsWritten(sqrt, ray, capsule), HitCapsule(sqrt, ray, capsule);
            w.Reported? && c.Reported? && w.hit.t == far && c.hit.t == far
            && w.hit.point == PointAt(ray, near) && c.hit.point == PointAt(ray, far)
  {
    HitCapsuleCaps(sqrt, ray, capsule);
  }

  /** Subtracting a multiple of `t` distributes over `u + v s`. */
  lemma SubtractAlong(t: L.Vec4, u: L.Vec4, v: L.Vec4, s: real, ku: real, kv: real)
    ensures L.Sub(L.Add(u, L.Scale(v, s)), L.Scale(t, ku + kv * s))
            == L.Add(L.Sub(u, L.Scale(t, ku)), L.Scale(L.Sub(v, L.Scale(t, kv)), s))
  {
    assert t.x * (ku + kv * s) == t.x * ku + (t.x * kv) * s;
    assert t.y * (ku + kv * s) == t.y * ku + (t.y * kv) * s;
    assert t.z * (ku + kv * s) == t.z * ku + (t.z * kv) * s;
    assert t.w * (ku + kv * s) == t.w * ku + (t.w * kv) * s;
  }

  /** The projection coefficient of `u + v s` is that of `u` plus `s` times that of `v`. */
  lemma CoefficientLinear(t: L.Vec4, u: L.Vec4, v: L.Vec4, s: real)
    requires L.LengthSqr(t) != 0.0
    ensures L.Dot(t, L.Add(u, L.Scale(v, s))) / L.LengthSqr(t)
            == L.Dot(t, u) / L.LengthSqr(t) + L.Dot(t, v) / L.LengthSqr(t) * s
  {
    L.DotAdd(t, u, L.Scale(v, s));
    L.DotScale(t, v, s);
    QuotLinear(L.Dot(t, u), L.Dot(t, v), s, L.LengthSqr(t));
  }

  /** `(a + b s) / n == a / n + (b / n) s`. */
  lemma QuotLinear(a: real, b: real, s: real, n: real)
    requires n != 0.0
    ensures (a + b * s) / n == a / n + (b / n) * s
  {
    var ka, kb := a / n, b / n;
    assert ka * n == a && kb * n == b;
    assert (kb * s) * n == (kb * n) * s;
    assert (ka + kb * s) * n == a + b * s;
  }

  /** The rejection from a non-zero axis is linear. */
  lemma RejectLinear(t: L.Vec4, u: L.Vec4, v: L.Vec4, s: real)
    requires L.LengthSqr(t) != 0.0
    ensures L.Reject(t, L.Add(u, L.Scale(v, s))) == L.Add(L.Reject(t, u), L.Scale(L.Reject(t, v), s))
  {
    var n := L.LengthSqr(t);
    var ku, kv := L.Dot(t, u) / n, L.Dot(t, v) / n;
    CoefficientLinear(t, u, v, s);
    RejectByCoefficient(t, L.Add(u, L.Scale(v, s)), ku + kv * s);
    RejectByCoefficient(t, u, ku);
    RejectByCoefficient(t, v, kv);
    SubtractAlong(t, u, v, s, ku, kv);
  }

  /** The rejection subtracts the axis times the projection coefficient. */
  lemma RejectByCoefficient(t: L.Vec4, a: L.Vec4, k: real)
    requires L.LengthSqr(t) != 0.0 && k == L.Dot(t, a) / L.LengthSqr(t)
    ensures L.Reject(t, a) == L.Sub(a, L.Scale(t, k))
  {
  }

  /** A point on the surface of the infinite cylinder around the capsule's axis. */
  predicate OnCylinder(p: L.Vec4, capsule: Capsule)
  {
    L.LengthSqr(L.Reject(Axis(capsule), L.Sub(p, capsule.start))) == capsule.radius * capsule.radius
  }

  /**
   * A hit on the cylinder part (the cylinder point lies between the cap
   * planes) is that point, and it lies on the cylinder of the capsule's
   * radius, for a ray not parallel to a non-degenerate axis.
   */
  lemma HitCapsuleCylinderSurface(sqrt: real -> real, ray: Ray, capsule: Capsule)
    requires L.IsSqrt(sqrt) && L.LengthSqr(Axis(capsule)) != 0.0
    requires CylinderQuadratic(ray, capsule).a != 0.0
    ensures var r := HitCapsule(sqrt, ray, capsule);
            var p := PointAt(ray, CylinderParameter(sqrt, ray, capsule));
            r.Reported? && !BeyondEnd(capsule, p) && !BeforeStart(capsule, p) ==>
              r.hit.point == p && OnCylinder(p, capsule) && HitCapsuleAsWritten(sqrt, ray, capsule) == r
  {
    var q := CylinderQuadratic(ray, capsule);
    var r := HitCapsule(sqrt, ray, capsule);
    var t := CylinderParameter(sqrt, ray, capsule);
    var p := PointAt(ray, t);
    if r.Reported? && !BeyondEnd(capsule, p) && !BeforeStart(capsule, p) {
      assert Discriminant(q) >= 0.0;
      ComputedRootSolves(sqrt, q, t);
      CylinderRootOnSurface(ray, capsule, t);
    }
  }

  /** A root of the cylinder quadratic is a point of the ray on the cylinder. */
  lemma CylinderRootOnSurface(ray: Ray, capsule: Capsule, t: real)
    requires L.LengthSqr(Axis(capsule)) != 0.0
    requires Value(CylinderQuadratic(ray, capsule), t) == 0.0
    ensures OnCylinder(PointAt(ray, t), capsule)
  {
    var axis := Axis(capsule);
    var u := L.Sub(ray.start, capsule.start);
    assert L.Sub(PointAt(ray, t), capsule.start) == L.Add(u, L.Scale(Direction(ray), t));
    RejectLinear(axis, u, Direction(ray), t);
    ContactValue(L.Reject(axis, u), L.Reject(axis, Direction(ray)), capsule.radius, t);
  }

  /** The dot product with a quotient vector is the quotient of the dot product. */
  lemma DotDiv(t: L.Vec4, v: L.Vec4, s: real)
    ensures L.Dot(t, L.Div(v, s)) == L.Quot(L.Dot(t, v), s)
  {
    if s != 0.0 {
      assert L.Div(v, s) == L.Scale(v, 1.0 / s);
      L.DotScale(t, v, 1.0 / s);
    }
  }

  /** The cylinder normal is perpendicular to the capsule's axis. */
  lemma CylinderNormalPerpendicular(sqrt: real -> real, capsule: Capsule, point: L.Vec4, t0: real)
    requires L.LengthSqr(Axis(capsule)) != 0.0
    ensures L.Dot(Axis(capsule), CylinderNormal(sqrt, capsule, point, t0)) == 0.0
  {
    var axis := Axis(capsule);
    var rej := if t0 >= 0.0 then L.Reject(axis, L.Sub(point, capsule.start))
               else L.Reject(axis, L.Sub(capsule.start, point));
    L.RejectOrthogonal(axis, if t0 >= 0.0 then L.Sub(point, capsule.start) else L.Sub(capsule.start, point));
    DotDiv(axis, rej, L.Length(rej, sqrt));
  }

  /**
   * The cylinder normal is a unit vector along the rejection of
   * `point - start` from the axis when `t0 >= 0`, and along the rejection of
   * `start - point` otherwise.
   */
  lemma CylinderNormalFacing(sqrt: real -> real, capsule: Capsule, point: L.Vec4, t0: real)
    requires L.IsSqrt(sqrt)
    requires L.LengthSqr(L.Reject(Axis(capsule), L.Sub(point, capsule.start))) != 0.0
    requires L.LengthSqr(L.Reject(Axis(capsule), L.Sub(capsule.start, point))) != 0.0
    ensures L.LengthSqr(CylinderNormal(sqrt, capsule, point, t0)) == 1.0
    ensures t0 >= 0.0 ==> L.Dot(CylinderNormal(sqrt, capsule, point, t0), L.Reject(Axis(capsule), L.Sub(point, capsule.start))) > 0.0
    ensures t0 < 0.0 ==> L.Dot(CylinderNormal(sqrt, capsule, point, t0), L.Reject(Axis(capsule), L.Sub(capsule.start, point))) > 0.0
  {
    var axis := Axis(capsule);
    var v := if t0 >= 0.0 then L.Reject(axis, L.Sub(point, capsule.start)) else L.Reject(axis, L.Sub(capsule.start, point));
    var n := CylinderNormal(sqrt, capsule, point, t0);
    assert n == L.Normalize(v, sqrt);
    L.NormalizeIsUnit(v, sqrt);
    NormalizeFaces(sqrt, v);
    L.DotSymmetric(v, n);
  }
}
