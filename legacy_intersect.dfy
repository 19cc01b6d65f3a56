// The first capsule test (Intersect.h at the repository root). Its
// `hitSphere` has the same body as the later header's (modelled as
// `Intersect.HitSphereAsWritten`); its `hitCapsule` finds the cylinder
// contact through the plane spanned by the ray and the axis (`splitPlane`)
// instead of solving a quadratic.

module LegacyIntersect {
  import L = Lanes
  import N = Intersect

  /**
   * The cross products need operands with w == 0 (the scalar backends assert
   * it): both the ray and the capsule are made of points with equal w.
   */
  predicate CrossReady(ray: N.Ray, capsule: N.Capsule)
  {
    N.Direction(ray).w == 0.0 && N.Axis(capsule).w == 0.0
  }

  /** What the branch logic of `hitCapsule` decides before the normal is computed. */
  datatype Outcome =
    | Miss                                  // returns false, `hit` untouched
    | Cap(sphere: N.Sphere)                 // delegated to `hitSphere` at an end cap
    | Side(point: L.Vec4, t: real)          // the side of the cylinder, at `t`

  /** `splitPlane = rayVec % capsuleVec`. */
  function SplitPlane(ray: N.Ray, capsule: N.Capsule): L.Vec4
    requires CrossReady(ray, capsule)
  {
    L.Cross(N.Direction(ray), N.Axis(capsule))
  }

  /** `Dsqr = splitNum * splitNum / splitDen`: the squared distance between the ray's line and the axis. */
  function Dsqr(ray: N.Ray, capsule: N.Capsule): real
    requires CrossReady(ray, capsule)
  {
    var plane := SplitPlane(ray, capsule);
    var splitNum := L.Dot(plane, L.Sub(ray.start, capsule.start));
    L.Quot(splitNum * splitNum, L.Dot(plane, plane))
  }

  /** `hitPlane = splitPlane % capsuleVec`. */
  function HitPlane(ray: N.Ray, capsule: N.Capsule): L.Vec4
    requires CrossReady(ray, capsule)
  {
    L.Cross(SplitPlane(ray, capsule), N.Axis(capsule))
  }

  /** `hitDen = hitPlane * rayVec`. */
  function HitDen(ray: N.Ray, capsule: N.Capsule): real
    requires CrossReady(ray, capsule)
  {
    L.Dot(HitPlane(ray, capsule), N.Direction(ray))
  }

  /**
   * The branch logic of `hitCapsule`: no contact when the lines are further
   * apart than the radius or the ray is parallel to `hitPlane`; otherwise
   * `t = (hitNum - H) / hitDen`, with points past either end handed to the
   * sphere test at that end.
   */
  function Solve(sqrt: real -> real, ray: N.Ray, capsule: N.Capsule): (r: Outcome)
    requires CrossReady(ray, capsule)
    ensures Dsqr(ray, capsule) > capsule.radius * capsule.radius ==> r == Miss
    ensures HitDen(ray, capsule) == 0.0 ==> r == Miss
    ensures r.Side? ==> (0.0 <= r.t <= 1.0 && r.point == N.PointAt(ray, r.t)
                         && !N.BeyondEnd(capsule, r.point) && !N.BeforeStart(capsule, r.point))
    ensures r.Cap? ==> r.sphere == N.Sphere(capsule.end, capsule.radius) || r.sphere == N.Sphere(capsule.start, capsule.radius)
  {
    var dsqr := Dsqr(ray, capsule);
    var rsqr := capsule.radius * capsule.radius;
    if dsqr > rsqr then Miss
    else
      var hitNum := L.Dot(HitPlane(ray, capsule), L.Sub(capsule.start, ray.start));
      var hitDen := HitDen(ray, capsule);
      if hitDen == 0.0 then Miss
      else
        var h := sqrt(rsqr - dsqr);
        var t := L.Quot(hitNum - h, hitDen);
        var hitPoint := N.PointAt(ray, t);
        if N.BeyondEnd(capsule, hitPoint) then Cap(N.Sphere(capsule.end, capsule.radius))
        else if N.BeforeStart(capsule, hitPoint) then Cap(N.Sphere(capsule.start, capsule.radius))
        else if t < 0.0 || t > 1.0 then Miss
        else Side(hitPoint, t)
  }

  /**
   * The side normal as written: `projected = capsuleVec * hitPoint *
   * capsuleVec / (capsuleVec * capsuleVec)` and `(hitPoint - projected)`
   * normalized, the rejection of the absolute hit point from the axis
   * direction.
   */
  function SideNormalAsWritten(sqrt: real -> real, capsule: N.Capsule, hitPoint: L.Vec4): (n: L.Vec4)
    ensures n == L.Normalize(L.Reject(N.Axis(capsule), hitPoint), sqrt)
  {
    var axis := N.Axis(capsule);
    var projected := L.Div(L.ScaleLeft(L.Dot(axis, hitPoint), axis), L.Dot(axis, axis));
    L.Normalize(L.Sub(hitPoint, projected), sqrt)
  }

  /** The side normal measured from the axis through `capsule.start`, as in the later header. */
  function SideNormal(sqrt: real -> real, capsule: N.Capsule, hitPoint: L.Vec4): L.Vec4
  {
    L.Normalize(L.Reject(N.Axis(capsule), L.Sub(hitPoint, capsule.start)), sqrt)
  }

  /** Moving a capsule by `d`. */
  function Moved(capsule: N.Capsule, d: L.Vec4): N.Capsule
  {
    N.Capsule(L.Add(capsule.start, d), L.Add(capsule.end, d), capsule.radius)
  }

  /**
   * `hitCapsule` as written: the caps call this header's own `hitSphere`,
   * which places the point at the near root (`Intersect.HitSphereAsWritten`).
   */
  function HitCapsuleAsWritten(sqrt: real -> real, ray: N.Ray, capsule: N.Capsule): (r: N.Option<N.Hit>)
    requires CrossReady(ray, capsule)
    ensures Dsqr(ray, capsule) > capsule.radius * capsule.radius ==> r == N.None
    ensures HitDen(ray, capsule) == 0.0 ==> r == N.None
    ensures r.Some? ==> 0.0 <= r.value.t <= 1.0
    ensures Solve(sqrt, ray, capsule).Side? ==> r.Some? && r.value.point == N.PointAt(ray, r.value.t)
  {
    var outcome := Solve(sqrt, ray, capsule);
    match outcome
    case Miss => N.None
    case Cap(sphere) => N.HitSphereAsWritten(sqrt, ray, sphere)
    case Side(p, t) => N.Some(N.Hit(p, SideNormalAsWritten(sqrt, capsule, p), t))
  }

  /**
   * `hitCapsule` with the side normal measured from the capsule's axis line
   * and the caps handed to the corrected sphere test.
   */
  function HitCapsule(sqrt: real -> real, ray: N.Ray, capsule: N.Capsule): (r: N.Option<N.Hit>)
    requires CrossReady(ray, capsule)
    ensures Dsqr(ray, capsule) > capsule.radius * capsule.radius ==> r == N.None
    ensures HitDen(ray, capsule) == 0.0 ==> r == N.None
    ensures r.Some? ==> 0.0 <= r.value.t <= 1.0 && r.value.point == N.PointAt(ray, r.value.t)
    ensures Solve(sqrt, ray, capsule).Side? ==>
              r == N.Some(N.Hit(Solve(sqrt, ray, capsule).point, SideNormal(sqrt, capsule, Solve(sqrt, ray, capsule).point), Solve(sqrt, ray, capsule).t))
  {
    var outcome := Solve(sqrt, ray, capsule);
    match outcome
    case Miss => N.None
    case Cap(sphere) => N.HitSphere(sqrt, ray, sphere)
    case Side(p, t) => N.Some(N.Hit(p, SideNormal(sqrt, capsule, p), t))
  }

  /**
   * The split-plane parameter `t = (hitNum - H) / hitDen` of the side hit,
   * where `H` is the root of `r^2 - Dsqr`.
   */
  function SideParameter(sqrt: real -> real, ray: N.Ray, capsule: N.Capsule): real
    requires CrossReady(ray, capsule)
  {
    var hitNum := L.Dot(HitPlane(ray, capsule), L.Sub(capsule.start, ray.start));
    L.Quot(hitNum - sqrt(capsule.radius * capsule.radius - Dsqr(ray, capsule)), HitDen(ray, capsule))
  }

  /**
   * The end caps: when the split plane meets the cylinder, a side point past
   * the end gives the sphere test at `capsule.end`, and one before the start
   * (and not past the end) the sphere test at `capsule.start`; `hitSphere`
   * as written in the test as written, the corrected sphere test in the
   * corrected one.
   */
  lemma HitCapsuleCaps(sqrt: real -> real, ray: N.Ray, capsule: N.Capsule)
    requires CrossReady(ray, capsule)
    ensures var p := N.PointAt(ray, SideParameter(sqrt, ray, capsule));
            var e := N.Sphere(capsule.end, capsule.radius);
            Dsqr(ray, capsule) <= capsule.radius * capsule.radius && HitDen(ray, capsule) != 0.0
            && N.BeyondEnd(capsule, p) ==>
              HitCapsuleAsWritten(sqrt, ray, capsule) == N.HitSphereAsWritten(sqrt, ray, e)
              && HitCapsule(sqrt, ray, capsule) == N.HitSphere(sqrt, ray, e)
    ensures var p := N.PointAt(ray, SideParameter(sqrt, ray, capsule));
            var s := N.Sphere(capsule.start, capsule.radius);
            Dsqr(ray, capsule) <= capsule.radius * capsule.radius && HitDen(ray, capsule) != 0.0
            && !N.BeyondEnd(capsule, p) && N.BeforeStart(capsule, p) ==>
              HitCapsuleAsWritten(sqrt, ray, capsule) == N.HitSphereAsWritten(sqrt, ray, s)
              && HitCapsule(sqrt, ray, capsule) == N.HitSphere(sqrt, ray, s)
  {
  }

  /** The corrected side normal is perpendicular to the axis and does not depend on where the origin is. */
  lemma SideNormalIsIntrinsic(sqrt: real -> real, capsule: N.Capsule, hitPoint: L.Vec4, d: L.Vec4)
    requires L.LengthSqr(N.Axis(capsule)) != 0.0
    ensures L.Dot(N.Axis(capsule), SideNormal(sqrt, capsule, hitPoint)) == 0.0
    ensures SideNormal(sqrt, Moved(capsule, d), L.Add(hitPoint, d)) == SideNormal(sqrt, capsule, hitPoint)
  {
    var axis := N.Axis(capsule);
    var rej := L.Reject(axis, L.Sub(hitPoint, capsule.start));
    L.RejectOrthogonal(axis, L.Sub(hitPoint, capsule.start));
    N.DotDiv(axis, rej, L.Length(rej, sqrt));
    assert N.Axis(Moved(capsule, d)) == axis;
    assert L.Sub(L.Add(hitPoint, d), L.Add(capsule.start, d)) == L.Sub(hitPoint, capsule.start);
  }

  /** Moving a capsule does not change its axis direction. */
  lemma MovedAxis(capsule: N.Capsule, d: L.Vec4)
    ensures N.Axis(Moved(capsule, d)) == N.Axis(capsule)
  {
    var a, b := N.Axis(Moved(capsule, d)), N.Axis(capsule);
    assert a.x == b.x && a.y == b.y && a.z == b.z && a.w == b.w;
  }

  /** A normalized vector keeps the ratio of its x and w lanes, and a non-zero w when its length is non-zero. */
  lemma NormalizeKeepsRatio(sqrt: real -> real, v: L.Vec4, k: real)
    requires v.x == k * v.w
    ensures L.Normalize(v, sqrt).x == k * L.Normalize(v, sqrt).w
    ensures L.Length(v, sqrt) != 0.0 && v.w != 0.0 ==> L.Normalize(v, sqrt).w != 0.0
  {
    var l := L.Length(v, sqrt);
    if l != 0.0 {
      assert L.Quot(v.x, l) == v.x / l;
      assert L.Quot(v.w, l) == v.w / l;
      assert (k * v.w) / l == k * (v.w / l);
    }
  }

  /** Vectors whose x : w ratios differ normalize to different vectors. */
  lemma RatiosKeepNormalsApart(sqrt: real -> real, a: L.Vec4, b: L.Vec4, ka: real, kb: real)
    requires a.x == ka * a.w && b.x == kb * b.w && ka != kb
    requires L.Length(a, sqrt) != 0.0 && a.w != 0.0
    ensures L.Normalize(a, sqrt) != L.Normalize(b, sqrt)
  {
    NormalizeKeepsRatio(sqrt, a, ka);
    NormalizeKeepsRatio(sqrt, b, kb);
  }

  /** A point (w == 1) has a non-zero length. */
  lemma LengthOfPoint(sqrt: real -> real, a: L.Vec4)
    requires L.IsSqrt(sqrt) && a.w == 1.0
    ensures L.Length(a, sqrt) != 0.0
  {
    var b := a.(w := 0.0);
    assert L.LengthSqr(a) == L.LengthSqr(b) + 1.0;
    L.RootOfNonZero(L.Length(a, sqrt), L.LengthSqr(a));
  }

  /**
   * The side normal as written changes when capsule and hit point move
   * together: for a capsule parallel to z, any point and a shift along x,
   * the rejection of the absolute point from the axis direction changes its
   * x : w ratio, so its direction.
   */
  lemma SideNormalAsWrittenDependsOnOrigin(sqrt: real -> real, capsule: N.Capsule, p: L.Vec4, d: L.Vec4)
    requires L.IsSqrt(sqrt)
    requires N.Axis(capsule).x == 0.0 && N.Axis(capsule).y == 0.0 && N.Axis(capsule).w == 0.0 && N.Axis(capsule).z != 0.0
    requires p.w == 1.0 && d.x != 0.0 && d.w == 0.0
    ensures SideNormalAsWritten(sqrt, Moved(capsule, d), L.Add(p, d)) != SideNormalAsWritten(sqrt, capsule, p)
  {
    var axis := N.Axis(capsule);
    var q := L.Add(p, d);
    MovedAxis(capsule, d);
    N.RejectFromZAxis(axis, p);
    N.RejectFromZAxis(axis, q);
    var a, b := L.Vec4(p.x, p.y, 0.0, p.w), L.Vec4(q.x, q.y, 0.0, q.w);
    assert q.x == p.x + d.x && q.w == p.w;
    var ka, kb := p.x, q.x;
    assert a.x == ka * a.w;
    assert b.x == kb * b.w;
    LengthOfPoint(sqrt, a);
    RatiosKeepNormalsApart(sqrt, a, b, ka, kb);
  }

  /** `splitPlane` is orthogonal to both the ray and the axis. */
  lemma SplitPlaneOrthogonal(ray: N.Ray, capsule: N.Capsule)
    requires CrossReady(ray, capsule)
    ensures L.Dot(SplitPlane(ray, capsule), N.Direction(ray)) == 0.0
    ensures L.Dot(SplitPlane(ray, capsule), N.Axis(capsule)) == 0.0
  {
    L.CrossOrthogonal(N.Direction(ray), N.Axis(capsule));
  }

  /** `hitPlane` is orthogonal to the axis and to `splitPlane`. */
  lemma HitPlaneOrthogonal(ray: N.Ray, capsule: N.Capsule)
    requires CrossReady(ray, capsule)
    ensures L.Dot(HitPlane(ray, capsule), N.Axis(capsule)) == 0.0
    ensures L.Dot(HitPlane(ray, capsule), SplitPlane(ray, capsule)) == 0.0
  {
    L.CrossOrthogonal(SplitPlane(ray, capsule), N.Axis(capsule));
  }

  /**
   * `hitDen` is minus the squared length of `splitPlane`, so never positive,
   * and zero when the ray is parallel to the axis.
   */
  lemma HitDenIsSplitLength(ray: N.Ray, capsule: N.Capsule)
    requires CrossReady(ray, capsule)
    ensures HitDen(ray, capsule) == -L.LengthSqr(SplitPlane(ray, capsule))
  {
    var d, a := N.Direction(ray), N.Axis(capsule);
    var s := SplitPlane(ray, capsule);
    TripleProduct(s, a, d);
    L.CrossAnticommutative(d, a);
    assert L.Dot(s, L.Neg(s)) == -(s.x * s.x + s.y * s.y + s.z * s.z);
  }

  /** The scalar triple product is cyclic: `(s x a) . d == s . (a x d)`. */
  lemma TripleProduct(s: L.Vec4, a: L.Vec4, d: L.Vec4)
    requires s.w == 0.0 && a.w == 0.0 && d.w == 0.0
    ensures L.Dot(L.Cross(s, a), d) == L.Dot(s, L.Cross(a, d))
  {
    var sx, sy, sz, ax, ay, az, dx, dy, dz := s.x, s.y, s.z, a.x, a.y, a.z, d.x, d.y, d.z;
    calc {
      L.Dot(L.Cross(s, a), d);
      (sy * az - sz * ay) * dx + (sz * ax - sx * az) * dy + (sx * ay - sy * ax) * dz;
      sx * (ay * dz - az * dy) + sy * (az * dx - ax * dz) + sz * (ax * dy - ay * dx);
      L.Dot(s, L.Cross(a, d));
    }
  }

  /** `Dsqr` is never negative, and is zero when the ray is parallel to the axis. */
  lemma DsqrNonNegative(ray: N.Ray, capsule: N.Capsule)
    requires CrossReady(ray, capsule)
    ensures Dsqr(ray, capsule) >= 0.0
    ensures SplitPlane(ray, capsule) == L.Zero ==> Dsqr(ray, capsule) == 0.0
  {
    var plane := SplitPlane(ray, capsule);
    var splitNum := L.Dot(plane, L.Sub(ray.start, capsule.start));
    SquareQuotient(splitNum, L.Dot(plane, plane));
  }

  /** The quotient of a square by a non-negative divisor is non-negative. */
  lemma SquareQuotient(x: real, y: real)
    requires y >= 0.0
    ensures L.Quot(x * x, y) >= 0.0
  {
    if y != 0.0 {
      var q := (x * x) / y;
      assert q * y == x * x;
    }
  }

  /** A ray parallel to the axis has no split plane and misses. */
  lemma ParallelRayMisses(sqrt: real -> real, ray: N.Ray, capsule: N.Capsule, k: real)
    requires CrossReady(ray, capsule)
    requires N.Direction(ray) == L.Scale(N.Axis(capsule), k)
    ensures SplitPlane(ray, capsule) == L.Zero
    ensures Solve(sqrt, ray, capsule) == Miss
  {
    var s := SplitPlane(ray, capsule);
    CrossOfScaled(N.Axis(capsule), k);
    assert s == L.Zero;
    assert L.LengthSqr(s) == 0.0;
    HitDenIsSplitLength(ray, capsule);
  }

  /** A vector crossed with a multiple of itself is zero. */
  lemma CrossOfScaled(a: L.Vec4, k: real)
    requires a.w == 0.0
    ensures L.Cross(L.Scale(a, k), a) == L.Zero
  {
    assert (a.y * k) * a.z - (a.z * k) * a.y == 0.0;
    assert (a.z * k) * a.x - (a.x * k) * a.z == 0.0;
    assert (a.x * k) * a.y - (a.y * k) * a.x == 0.0;
  }
}
