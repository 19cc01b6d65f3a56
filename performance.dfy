// The benchmark harness (src/test/Performance.cpp): each functor slices a
// stream of floats into argument records, runs its operation over the
// first `iterations` of them, and `testPerformance` times every functor on
// the three backends, sorts the timings and keeps the median of each.
// A functor is instantiated with its backend (module Backends): `default`
// and `aligned` compute the reference formulas, and src/math/Intrinsic.h's
// `intrinsic` computes `LengthFast` and `NormalizeFast` with the
// approximate reciprocal root `rsqrt` (Intrinsic.LengthFast and
// Intrinsic.NormalizeFast) and agrees with the reference formulas
// elsewhere, for a non-zero direction where it divides by one. The
// harness includes math/Default.h, math/Aligned.h and math/Intersect.h,
// which are not part of this model: the two scalar backends are taken to
// be the lane algebra of module Lanes, and the intersection tests,
// `std::sqrt` and `_mm_rsqrt_ps` are parameters.

module Benchmarks {
  import L = Lanes
  import N = Intersect
  import T = Timers
  import F = Features
  import I = Intrinsic
  import Bk = Backends

  /** The benchmark functors, one per operation timed. */
  datatype Kind =
    | VectorAdd | VectorSub | ScalarMul | ScalarDiv
    | VectorLength | VectorLengthFast | VectorNormalize | VectorNormalizeFast
    | VectorDot | VectorCross | VectorProject | VectorReject | VectorReflect
    | HitSphere | HitCapsule

  /** The functor's `size`: the floats one argument record is built from. */
  function Size(k: Kind): nat
  {
    match k
    case VectorAdd | VectorSub | VectorDot | VectorProject | VectorReject | VectorReflect => 8
    case ScalarMul | ScalarDiv => 5
    case VectorLength | VectorLengthFast | VectorNormalize | VectorNormalizeFast => 4
    case VectorCross => 6
    case HitSphere => 10
    case HitCapsule => 13
  }

  /** A functor's `Args`: two vectors, a vector and a scalar, one vector, or a ray and a shape. */
  datatype Args =
    | Pair(a: L.Vec4, b: L.Vec4)
    | Scaled(v: L.Vec4, s: real)
    | Single(v: L.Vec4)
    | SphereArgs(ray: N.Ray, sphere: N.Sphere)
    | CapsuleArgs(ray: N.Ray, capsule: N.Capsule)

  /** `{ *v++, *v++, *v++, *v++ }` at `at`. */
  function Vec4At(s: seq<real>, at: nat): L.Vec4
    requires at + 4 <= |s|
  {
    L.Vec4(s[at], s[at + 1], s[at + 2], s[at + 3])
  }

  /** `{ *v++, *v++, *v++, w }` at `at`, the fourth lane a constant. */
  function Vec3At(s: seq<real>, at: nat, w: real): L.Vec4
    requires at + 3 <= |s|
  {
    L.Vec4(s[at], s[at + 1], s[at + 2], w)
  }

  /**
   * An argument record of the shape functor `k` builds, with the constant
   * lanes it sets: w = 0 on both cross operands, which the cross product
   * requires, and w = 1 on the points of the rays and shapes.
   */
  predicate Fits(k: Kind, args: Args)
  {
    match k
    case VectorAdd | VectorSub | VectorDot | VectorProject | VectorReject | VectorReflect => args.Pair?
    case ScalarMul | ScalarDiv => args.Scaled?
    case VectorLength | VectorLengthFast | VectorNormalize | VectorNormalizeFast => args.Single?
    case VectorCross => args.Pair? && args.a.w == 0.0 && args.b.w == 0.0
    case HitSphere =>
      args.SphereArgs? && args.ray.start.w == 1.0 && args.ray.end.w == 1.0 && args.sphere.origin.w == 1.0
    case HitCapsule =>
      args.CapsuleArgs? && args.ray.start.w == 1.0 && args.ray.end.w == 1.0
      && args.capsule.start.w == 1.0 && args.capsule.end.w == 1.0
  }

  /** The argument record functor `k` builds from its `Size(k)` floats, in reading order. */
  function Unpack(k: Kind, s: seq<real>): (r: Args)
    requires |s| == Size(k)
    ensures Fits(k, r)
  {
    match k
    case VectorAdd | VectorSub | VectorDot | VectorProject | VectorReject | VectorReflect =>
      Pair(Vec4At(s, 0), Vec4At(s, 4))
    case ScalarMul | ScalarDiv => Scaled(Vec4At(s, 0), s[4])
    case VectorLength | VectorLengthFast | VectorNormalize | VectorNormalizeFast => Single(Vec4At(s, 0))
    case VectorCross => Pair(Vec3At(s, 0, 0.0), Vec3At(s, 3, 0.0))
    case HitSphere => SphereArgs(N.Ray(Vec3At(s, 0, 1.0), Vec3At(s, 3, 1.0)), N.Sphere(Vec3At(s, 6, 1.0), s[9]))
    case HitCapsule =>
      CapsuleArgs(N.Ray(Vec3At(s, 0, 1.0), Vec3At(s, 3, 1.0)), N.Capsule(Vec3At(s, 6, 1.0), Vec3At(s, 9, 1.0), s[12]))
  }

  /** The four lanes of a vector. */
  function Lanes4(v: L.Vec4): seq<real>
  {
    [v.x, v.y, v.z, v.w]
  }

  /** The three leading lanes of a vector. */
  function Lanes3(v: L.Vec4): seq<real>
  {
    [v.x, v.y, v.z]
  }

  /** The floats an argument record was read from, in reading order; the constant lanes are not read. */
  function Flatten(k: Kind, args: Args): (r: seq<real>)
    requires Fits(k, args)
    ensures |r| == Size(k)
  {
    match k
    case VectorAdd | VectorSub | VectorDot | VectorProject | VectorReject | VectorReflect =>
      Lanes4(args.a) + Lanes4(args.b)
    case ScalarMul | ScalarDiv => Lanes4(args.v) + [args.s]
    case VectorLength | VectorLengthFast | VectorNormalize | VectorNormalizeFast => Lanes4(args.v)
    case VectorCross => Lanes3(args.a) + Lanes3(args.b)
    case HitSphere => Lanes3(args.ray.start) + Lanes3(args.ray.end) + Lanes3(args.sphere.origin) + [args.sphere.radius]
    case HitCapsule =>
      Lanes3(args.ray.start) + Lanes3(args.ray.end) + Lanes3(args.capsule.start) + Lanes3(args.capsule.end)
        + [args.capsule.radius]
  }

  /** Each of a functor's `Size(k)` floats is read once, in order, into its argument record. */
  lemma FlattenUnpack(k: Kind, s: seq<real>)
    requires |s| == Size(k)
    ensures Flatten(k, Unpack(k, s)) == s
  {
    var f := Flatten(k, Unpack(k, s));
    forall i | 0 <= i < |s|
      ensures f[i] == s[i]
    {
    }
  }

  /** A record of the functor's shape is determined by the floats it is read from. */
  lemma UnpackFlatten(k: Kind, args: Args)
    requires Fits(k, args)
    ensures Unpack(k, Flatten(k, args)) == args
  {
  }

  /** Record `ii` of `n / size` ends within the `n` floats. */
  lemma SliceInBounds(ii: nat, n: nat, size: nat)
    requires 0 < size && ii < n / size
    ensures ii * size + size <= n
  {
    RecordsBefore(ii, n / size, size);
    assert (n / size) * size <= n;
  }

  /** Records `0..ii` of `size` floats end no later than `q > ii` records do. */
  lemma RecordsBefore(ii: nat, q: nat, size: nat)
    requires ii < q
    ensures ii * size + size <= q * size
  {
    assert q * size == (ii + 1) * size + (q - ii - 1) * size;
  }

  /** The argument records a functor builds from `data`: record `ii` from `data[ii * size, (ii + 1) * size)`. */
  function Inputs(k: Kind, data: seq<real>): (r: seq<Args>)
    ensures |r| == |data| / Size(k)
    ensures forall ii :: 0 <= ii < |r| ==> Fits(k, r[ii])
  {
    seq(|data| / Size(k), ii requires 0 <= ii < |data| / Size(k) =>
      SliceInBounds(ii, |data|, Size(k));
      Unpack(k, data[ii * Size(k) .. ii * Size(k) + Size(k)]))
  }

  /** What a functor writes per record: a vector, a scalar, or a hit. */
  datatype Out = VecOut(v: L.Vec4) | RealOut(s: real) | HitOut(hit: N.Hit)

  /** The functions the functors call but this model does not define. */
  datatype Externals = Externals(sqrt: real -> real, rsqrt: real -> real,
                                 hitSphere: (N.Ray, N.Sphere) -> N.Option<N.Hit>,
                                 hitCapsule: (N.Ray, N.Capsule) -> N.Option<N.Hit>)

  /**
   * The backends `testPerformance` instantiates a functor with: `default`,
   * `aligned` and src/math/Intrinsic.h's `intrinsic`.
   */
  predicate Instantiable(be: Bk.Backend)
  {
    Bk.Valid(be) && !be.RootSse?
  }

  /**
   * What `_output.resize` leaves in element `ii` when the element type has a
   * user-provided default constructor that sets nothing: the contents of a
   * `Vector`, and of the intrinsic `Scalar`.
   */
  datatype Leftover = Leftover(vector: nat -> L.Vec4, scalar: nat -> real)

  /**
   * Output element `ii` after `_output.resize`: a `Vector` or an intrinsic
   * `Scalar` keeps what was there, the scalar backends' `float` and the
   * aggregate `Hit` are zeroed.
   */
  function Initial(k: Kind, be: Bk.Backend, left: Leftover, ii: nat): (r: Out)
    ensures k.HitSphere? || k.HitCapsule? ==> r == HitOut(N.Hit(L.Zero, L.Zero, 0.0))
    ensures (k.VectorLength? || k.VectorLengthFast? || k.VectorDot?) && Bk.IsScalar(be) ==> r == RealOut(0.0)
    ensures (k.VectorLength? || k.VectorLengthFast? || k.VectorDot?) && !Bk.IsScalar(be) ==> r == RealOut(left.scalar(ii))
  {
    match k
    case VectorLength | VectorLengthFast | VectorDot => RealOut(if Bk.IsScalar(be) then 0.0 else left.scalar(ii))
    case HitSphere | HitCapsule => HitOut(N.Hit(L.Zero, L.Zero, 0.0))
    case _ => VecOut(left.vector(ii))
  }

  /** `LengthFast`: the root on the scalar backends, q·rsqrt(q) of the squared length q on `intrinsic`. */
  function LengthFast(be: Bk.Backend, ext: Externals, v: L.Vec4): (r: real)
    requires Instantiable(be)
    ensures Bk.IsScalar(be) ==> r == ext.sqrt(L.LengthSqr(v))
    ensures !Bk.IsScalar(be) ==> r == L.LengthSqr(v) * ext.rsqrt(L.LengthSqr(v))
  {
    match be
    case Sse(bits) => I.ToFloat(I.LengthFast(bits, ext.rsqrt, v))
    case _ => L.LengthFast(v, ext.sqrt)
  }

  /** `a.Project(b)` on the functor's backend: the reference projection onto a non-zero `a`. */
  function Project(be: Bk.Backend, a: L.Vec4, b: L.Vec4): (r: L.Vec4)
    requires Instantiable(be)
    ensures L.LengthSqr(a) != 0.0 || !be.Sse? ==> r == L.Project(a, b)
  {
    match be
    case Sse(bits) => I.Project(bits, a, b)
    case _ => L.Project(a, b)
  }

  /** `a.Reject(b)` on the functor's backend: the reference rejection from a non-zero `a`. */
  function Reject(be: Bk.Backend, a: L.Vec4, b: L.Vec4): (r: L.Vec4)
    requires Instantiable(be)
    ensures L.LengthSqr(a) != 0.0 || !be.Sse? ==> r == L.Reject(a, b)
  {
    match be
    case Sse(bits) => I.Reject(bits, a, b)
    case _ => L.Reject(a, b)
  }

  /**
   * `a.Reflect(b)` on the functor's backend: the reference reflection across
   * a non-zero `a`. Without FMA, `intrinsic` takes the corrected branch.
   */
  function Reflect(be: Bk.Backend, a: L.Vec4, b: L.Vec4): (r: L.Vec4)
    requires Instantiable(be)
    ensures L.LengthSqr(a) != 0.0 || !be.Sse? ==> r == L.Reflect(a, b)
  {
    match be
    case Sse(bits) => I.ReflectOnHost(bits, a, b)
    case Default | Aligned => L.Reflect(a, b)
  }

  /**
   * What one step of `operator()` on backend `be` leaves in the output
   * element that held `previous`: the operation's result, except that a
   * missed intersection test does not write its hit, so the element keeps
   * its value.
   */
  function Op(ext: Externals, be: Bk.Backend, k: Kind, args: Args, previous: Out): (r: Out)
    requires Instantiable(be) && Fits(k, args)
    ensures k == HitSphere && ext.hitSphere(args.ray, args.sphere).None? ==> r == previous
    ensures k == HitSphere && ext.hitSphere(args.ray, args.sphere).Some? ==> r == HitOut(ext.hitSphere(args.ray, args.sphere).value)
    ensures k == HitCapsule && ext.hitCapsule(args.ray, args.capsule).None? ==> r == previous
    ensures k == HitCapsule && ext.hitCapsule(args.ray, args.capsule).Some? ==> r == HitOut(ext.hitCapsule(args.ray, args.capsule).value)
    ensures k == VectorCross ==> r.VecOut? && r.v.w == 0.0
  {
    match k
    case VectorAdd => VecOut(L.Add(args.a, args.b))
    case VectorSub => VecOut(L.Sub(args.a, args.b))
    case ScalarMul => VecOut(Bk.MulScalar(be, args.v, args.s))
    case ScalarDiv => VecOut(Bk.DivScalar(be, args.v, args.s))
    case VectorLength => RealOut(Bk.Length(be, ext.sqrt, args.v))
    case VectorLengthFast => RealOut(LengthFast(be, ext, args.v))
    case VectorNormalize => VecOut(Bk.Normalize(be, ext.sqrt, args.v))
    case VectorNormalizeFast => VecOut(Bk.NormalizeFast(be, ext.sqrt, ext.rsqrt, args.v))
    case VectorDot => RealOut(Bk.Dot(be, args.a, args.b))
    case VectorCross => VecOut(Bk.Cross(be, args.a, args.b))
    case VectorProject => VecOut(Project(be, args.a, args.b))
    case VectorReject => VecOut(Reject(be, args.a, args.b))
    case VectorReflect => VecOut(Reflect(be, args.a, args.b))
    case HitSphere =>
      var h := ext.hitSphere(args.ray, args.sphere);
      if h.Some? then HitOut(h.value) else previous
    case HitCapsule =>
      var h := ext.hitCapsule(args.ray, args.capsule);
      if h.Some? then HitOut(h.value) else previous
  }

  /** The arithmetic functors compute the reference formulas on every backend. */
  lemma OpIsReference(ext: Externals, be: Bk.Backend, k: Kind, args: Args, previous: Out)
    requires Instantiable(be) && Fits(k, args)
    ensures k == VectorAdd ==> Op(ext, be, k, args, previous) == VecOut(L.Add(args.a, args.b))
    ensures k == VectorSub ==> Op(ext, be, k, args, previous) == VecOut(L.Sub(args.a, args.b))
    ensures k == ScalarMul ==> Op(ext, be, k, args, previous) == VecOut(L.Scale(args.v, args.s))
    ensures k == ScalarDiv && args.s != 0.0 ==> Op(ext, be, k, args, previous) == VecOut(L.Div(args.v, args.s))
    ensures k == VectorLength ==> Op(ext, be, k, args, previous) == RealOut(ext.sqrt(L.LengthSqr(args.v)))
    ensures k == VectorNormalize ==> Op(ext, be, k, args, previous) == VecOut(L.Normalize(args.v, ext.sqrt))
    ensures k == VectorDot ==> Op(ext, be, k, args, previous) == RealOut(L.Dot(args.a, args.b))
    ensures k == VectorCross ==> Op(ext, be, k, args, previous) == VecOut(L.Cross(args.a, args.b))
  {
    if k == VectorCross {
      assert args.a.(w := 0.0) == args.a && args.b.(w := 0.0) == args.b;
    }
  }

  /**
   * The fast length: the exact root on the scalar backends, q·rsqrt(q) of
   * the squared length q on `intrinsic`.
   */
  lemma OpLengthFast(ext: Externals, be: Bk.Backend, args: Args, previous: Out)
    requires Instantiable(be) && Fits(VectorLengthFast, args)
    ensures Bk.IsScalar(be) ==> Op(ext, be, VectorLengthFast, args, previous) == RealOut(ext.sqrt(L.LengthSqr(args.v)))
    ensures !Bk.IsScalar(be) ==>
              Op(ext, be, VectorLengthFast, args, previous) == RealOut(L.LengthSqr(args.v) * ext.rsqrt(L.LengthSqr(args.v)))
  {
    var r := LengthFast(be, ext, args.v);
    if Bk.IsScalar(be) {
      assert r == ext.sqrt(L.LengthSqr(args.v));
    } else {
      assert r == L.LengthSqr(args.v) * ext.rsqrt(L.LengthSqr(args.v));
    }
    assert Op(ext, be, VectorLengthFast, args, previous) == RealOut(r);
  }

  /**
   * The fast normalisation: `Normalize` on the scalar backends, scaling by
   * rsqrt of the squared length on `intrinsic`.
   */
  lemma OpNormalizeFast(ext: Externals, be: Bk.Backend, args: Args, previous: Out)
    requires Instantiable(be) && Fits(VectorNormalizeFast, args)
    ensures Bk.IsScalar(be) ==> Op(ext, be, VectorNormalizeFast, args, previous) == VecOut(L.Normalize(args.v, ext.sqrt))
    ensures !Bk.IsScalar(be) ==>
              Op(ext, be, VectorNormalizeFast, args, previous) == VecOut(L.Scale(args.v, ext.rsqrt(L.LengthSqr(args.v))))
  {
    assert Op(ext, be, VectorNormalizeFast, args, previous) == VecOut(Bk.NormalizeFast(be, ext.sqrt, ext.rsqrt, args.v));
  }

  /**
   * Projection, rejection and reflection: the reference formulas for a
   * non-zero direction on every backend, and for any direction on
   * `default` and `aligned`.
   */
  lemma OpDirections(ext: Externals, be: Bk.Backend, k: Kind, args: Args, previous: Out)
    requires Instantiable(be) && Fits(k, args)
    ensures k == VectorProject && (L.LengthSqr(args.a) != 0.0 || !be.Sse?) ==>
              Op(ext, be, k, args, previous) == VecOut(L.Project(args.a, args.b))
    ensures k == VectorReject && (L.LengthSqr(args.a) != 0.0 || !be.Sse?) ==>
              Op(ext, be, k, args, previous) == VecOut(L.Reject(args.a, args.b))
    ensures k == VectorReflect && (L.LengthSqr(args.a) != 0.0 || !be.Sse?) ==>
              Op(ext, be, k, args, previous) == VecOut(L.Reflect(args.a, args.b))
  {
  }

  /**
   * The output as `resize` leaves it has the shape the functor writes, so
   * every output keeps one shape.
   */
  lemma InitialHasOpShape(ext: Externals, be: Bk.Backend, k: Kind, args: Args, left: Leftover, ii: nat)
    requires Instantiable(be) && Fits(k, args)
    ensures Op(ext, be, k, args, Initial(k, be, left, ii)).VecOut? == Initial(k, be, left, ii).VecOut?
    ensures Op(ext, be, k, args, Initial(k, be, left, ii)).RealOut? == Initial(k, be, left, ii).RealOut?
    ensures Op(ext, be, k, args, Initial(k, be, left, ii)).HitOut? == Initial(k, be, left, ii).HitOut?
  {
  }

  /** Running a functor again over the same records leaves the same outputs. */
  lemma OpIdempotent(ext: Externals, be: Bk.Backend, k: Kind, args: Args, previous: Out)
    requires Instantiable(be) && Fits(k, args)
    ensures Op(ext, be, k, args, Op(ext, be, k, args, previous)) == Op(ext, be, k, args, previous)
  {
  }

  /** After a run over `iterations` records, from outputs `before`. */
  ghost predicate Ran(ext: Externals, be: Bk.Backend, k: Kind, input: seq<Args>, iterations: nat, before: seq<Out>, after: seq<Out>)
  {
    |after| == |before| == |input| && iterations <= |input| && Instantiable(be)
    && (forall ii :: 0 <= ii < iterations ==> Fits(k, input[ii]) && after[ii] == Op(ext, be, k, input[ii], before[ii]))
    && (forall ii :: iterations <= ii < |after| ==> after[ii] == before[ii])
  }

  /**
   * A benchmark functor: its argument records and its output buffer, both
   * sized to `data.size() / size`.
   */
  class Functor {
    const kind: Kind
    const backend: Bk.Backend
    const input: array<Args>
    const output: array<Out>

    /** The buffers match and every record has the functor's shape. */
    ghost predicate Valid()
      reads this, input
    {
      Instantiable(backend) && output.Length == input.Length
      && forall ii :: 0 <= ii < input.Length ==> Fits(kind, input[ii])
    }

    /**
     * The constructor on backend `backend`: advances through `data` one
     * record of `Size(kind)` floats at a time; `left` is what the output
     * buffer's memory held.
     */
    constructor(kind: Kind, backend: Bk.Backend, data: seq<real>, left: Leftover)
      requires Instantiable(backend)
      ensures this.kind == kind && this.backend == backend && Valid()
      ensures input[..] == Inputs(kind, data) && output.Length == |data| / Size(kind)
      ensures forall ii :: 0 <= ii < output.Length ==> output[ii] == Initial(kind, backend, left, ii)
      ensures fresh(input) && fresh(output)
    {
      var size := Size(kind);
      var n := |data| / size;
      ghost var spec := Inputs(kind, data);
      var records := new Args[n](_ => Single(L.Zero));
      var v := 0;
      var ii := 0;
      while ii < n
        invariant 0 <= ii <= n && v == ii * size
        invariant forall j :: 0 <= j < ii ==> records[j] == spec[j]
      {
        v := ReadRecord(kind, data, ii, v, records);
        ii := ii + 1;
      }
      this.kind := kind;
      this.backend := backend;
      input := records;
      output := new Out[n](ii => Initial(kind, backend, left, ii));
    }

    /**
     * `operator()(iterations)`: output element `ii` gets the operation on
     * record `ii`, for `ii < iterations`; the rest are untouched. There is
     * no bounds check: the caller must pass at most the number of records.
     */
    method Run(ext: Externals, iterations: nat)
      requires Valid() && iterations <= input.Length
      modifies output
      ensures Ran(ext, backend, kind, input[..], iterations, old(output[..]), output[..])
    {
      var ii := 0;
      while ii < iterations
        invariant 0 <= ii <= iterations
        invariant forall j :: 0 <= j < ii ==> output[j] == Op(ext, backend, kind, input[j], old(output[j]))
        invariant forall j :: ii <= j < output.Length ==> output[j] == old(output[j])
      {
        output[ii] := Op(ext, backend, kind, input[ii], output[ii]);
        ii := ii + 1;
      }
    }
  }

  /**
   * One pass of the constructor's loop: record `ii` is read from the `Size(k)`
   * floats at `v`, inside `data`, and the cursor moves past them.
   */
  method ReadRecord(k: Kind, data: seq<real>, ii: nat, v: nat, records: array<Args>) returns (next: nat)
    requires ii < records.Length == |data| / Size(k) && v == ii * Size(k)
    modifies records
    ensures next == v + Size(k) && next == (ii + 1) * Size(k)
    ensures records[ii] == Inputs(k, data)[ii]
    ensures forall j :: 0 <= j < records.Length && j != ii ==> records[j] == old(records[j])
  {
    SliceInBounds(ii, |data|, Size(k));
    records[ii] := Unpack(k, data[v .. v + Size(k)]);
    next := v + Size(k);
  }

  /** A second run over the same records changes nothing: the outputs are those of one run. */
  lemma RanTwice(ext: Externals, be: Bk.Backend, k: Kind, input: seq<Args>, iterations: nat,
                 before: seq<Out>, middle: seq<Out>, after: seq<Out>)
    requires Ran(ext, be, k, input, iterations, before, middle) && Ran(ext, be, k, input, iterations, middle, after)
    ensures after == middle
  {
    forall ii | 0 <= ii < |after|
      ensures after[ii] == middle[ii]
    {
      if ii < iterations {
        OpIdempotent(ext, be, k, input[ii], before[ii]);
      }
    }
  }

  /** A counter reading at `Start` and at `Stop`. */
  datatype Reading = Reading(start: int, stop: int)

  /** The microseconds a fresh timer reports for one reading at `freq` ticks per second. */
  function Elapsed(freq: int, reading: Reading): (r: real)
    requires freq > 0
    ensures r >= 0.0
    ensures reading.start <= reading.stop ==> r * freq as real == 1000000.0 * (reading.stop - reading.start) as real
  {
    T.QuotientSign(1000000.0 * T.Clamped(reading.start, reading.stop) as real, freq as real);
    1000000.0 * T.Clamped(reading.start, reading.stop) as real / freq as real
  }

  /**
   * `testPerformanceSingle`: a fresh timer around one run of the functor;
   * returns the microseconds it measured.
   */
  method TimeRun(fn: Functor, ext: Externals, iterations: nat, reading: Reading, freq: int) returns (micros: real)
    requires fn.Valid() && iterations <= fn.input.Length && freq > 0
    modifies fn.output
    ensures micros == Elapsed(freq, reading)
    ensures Ran(ext, fn.backend, fn.kind, fn.input[..], iterations, old(fn.output[..]), fn.output[..])
  {
    var timer := new T.Timer();
    timer.Start(reading.start);
    fn.Run(ext, iterations);
    timer.Stop(reading.stop);
    micros := timer.Microseconds(freq);
  }

  /** Rows in non-decreasing order. */
  predicate Sorted(s: seq<real>)
  {
    forall i, j :: 0 <= i < j < |s| ==> s[i] <= s[j]
  }

  /** `std::sort` on one row: sorts it in place, a permutation of what it held. */
  method SortRow(a: array<real>)
    modifies a
    ensures Sorted(a[..]) && multiset(a[..]) == multiset(old(a[..]))
  {
    var i := 0;
    while i < a.Length
      invariant 0 <= i <= a.Length
      invariant Sorted(a[..i]) && multiset(a[..]) == multiset(old(a[..]))
    {
      InsertLast(a, i);
      i := i + 1;
    }
  }

  /** Sinks `a[i]` into the sorted prefix `a[..i]`, by adjacent swaps. */
  method InsertLast(a: array<real>, i: nat)
    requires i < a.Length && Sorted(a[..i])
    modifies a
    ensures Sorted(a[..i + 1]) && multiset(a[..]) == multiset(old(a[..]))
  {
    var j := i;
    SinkStart(a[..], i);
    while j > 0 && a[j - 1] > a[j]
      invariant 0 <= j <= i && Sinking(a[..], j, i)
      invariant multiset(a[..]) == multiset(old(a[..]))
    {
      ghost var s := a[..];
      a[j - 1], a[j] := a[j], a[j - 1];
      assert a[..] == Swapped(s, j);
      SinkStep(s, j, i);
      j := j - 1;
    }
    SinkDone(a[..], j, i);
  }

  /**
   * The state of the sinking loop over `s[..i + 1]`: the element being sunk
   * sits at `j`, the others are in order, it is no larger than anything
   * after it, and everything before it is no larger than anything after it.
   */
  ghost predicate Sinking(s: seq<real>, j: nat, i: nat)
    requires j <= i < |s|
  {
    && (forall k, l :: 0 <= k < l <= i && k != j && l != j ==> s[k] <= s[l])
    && (forall l :: j < l <= i ==> s[j] <= s[l])
    && (forall k, l :: 0 <= k < j && j < l <= i ==> s[k] <= s[l])
  }

  /** `s` with the lanes `j - 1` and `j` exchanged. */
  function Swapped(s: seq<real>, j: nat): (r: seq<real>)
    requires 0 < j < |s|
    ensures |r| == |s| && multiset(r) == multiset(s)
    ensures r[j - 1] == s[j] && r[j] == s[j - 1]
    ensures forall k :: 0 <= k < |s| && k != j - 1 && k != j ==> r[k] == s[k]
  {
    s[j - 1 := s[j]][j := s[j - 1]]
  }

  /** A sorted prefix `s[..i]` with `s[i]` to sink is the starting state. */
  lemma SinkStart(s: seq<real>, i: nat)
    requires i < |s| && Sorted(s[..i])
    ensures Sinking(s, i, i)
  {
    assert forall k :: 0 <= k < i ==> s[..i][k] == s[k];
  }

  /** Swapping the sunk element with a larger predecessor moves the state one lane down. */
  lemma SinkStep(s: seq<real>, j: nat, i: nat)
    requires 0 < j <= i < |s| && Sinking(s, j, i) && s[j - 1] > s[j]
    ensures Sinking(Swapped(s, j), j - 1, i)
  {
  }

  /** When the sunk element is at the front or no smaller than its predecessor, `s[..i + 1]` is sorted. */
  lemma SinkDone(s: seq<real>, j: nat, i: nat)
    requires j <= i < |s| && Sinking(s, j, i) && (j == 0 || s[j - 1] <= s[j])
    ensures Sorted(s[..i + 1])
  {
  }

  /** Untimed rounds before the measured ones. */
  const WarmUpCount: nat := 4

  /** Measured rounds, `kLoopCount`. */
  const LoopCount: nat := 16

  /**
   * The readings behind backend `b`'s measured timings: the warm-up rounds
   * use the first `3 * WarmUpCount`, then each round times the three
   * backends in turn.
   */
  function Measured(clock: seq<Reading>, freq: int, b: nat): (r: seq<real>)
    requires freq > 0 && b < 3 && |clock| == 3 * (WarmUpCount + LoopCount)
    ensures |r| == LoopCount
  {
    seq(LoopCount, ii requires 0 <= ii < LoopCount => Elapsed(freq, clock[3 * WarmUpCount + 3 * ii + b]))
  }

  /** `1.0e2 * a / b`, with a placeholder where the division is by zero. */
  function Percent(a: real, b: real): (r: real)
    ensures b != 0.0 ==> r * b == 100.0 * a
  {
    L.Quot(100.0 * a, b)
  }

  /** The timing a sorted row reports: its element at `kLoopCount / 2`, the upper median. */
  ghost predicate IsMedianOf(m: real, row: seq<real>)
  {
    exists t :: |t| == |row| && multiset(t) == multiset(row) && Sorted(t) && 0 < |t| && t[|t| / 2] == m
  }

  /**
   * `testPerformance`: builds the functor on each of the three backends
   * from `data`, runs the warm-up rounds untimed, times `LoopCount` rounds,
   * sorts each backend's timings in place and reports the element at
   * `LoopCount / 2` of each, with the first backend's timing as a
   * percentage of each of the others'. `clock` holds the counter readings
   * around each run, in the order the runs happen; `bits` are the features
   * `intrinsic` is built for, and `left(b)` is what backend `b`'s output
   * buffer held.
   */
  method TestPerformance(kind: Kind, ext: Externals, bits: bv32, left: nat -> Leftover, data: seq<real>, iterations: nat,
                         clock: seq<Reading>, freq: int)
    returns (timing: seq<real>, ratio1: real, ratio2: real)
    requires Instantiable(Bk.Sse(bits))
    requires iterations <= |data| / Size(kind) && freq > 0 && |clock| == 3 * (WarmUpCount + LoopCount)
    ensures |timing| == 3 && IsMedianOf(timing[0], Measured(clock, freq, 0))
            && IsMedianOf(timing[1], Measured(clock, freq, 1)) && IsMedianOf(timing[2], Measured(clock, freq, 2))
    ensures ratio1 == Percent(timing[0], timing[1]) && ratio2 == Percent(timing[0], timing[2])
  {
    var row0, row1, row2 := Measure(kind, ext, bits, left, data, iterations, clock, freq);
    timing := Medians(row0, row1, row2, Measured(clock, freq, 0), Measured(clock, freq, 1), Measured(clock, freq, 2));
    ratio1 := Percent(timing[0], timing[1]);
    ratio2 := Percent(timing[0], timing[2]);
  }

  /**
   * The functor on `default`, `aligned` and `intrinsic`, each built from
   * `data`, the warm-up rounds, and the measured rounds' timings, one row
   * per backend.
   */
  method Measure(kind: Kind, ext: Externals, bits: bv32, left: nat -> Leftover, data: seq<real>, iterations: nat,
                 clock: seq<Reading>, freq: int)
    returns (row0: array<real>, row1: array<real>, row2: array<real>)
    requires Instantiable(Bk.Sse(bits))
    requires iterations <= |data| / Size(kind) && freq > 0 && |clock| == 3 * (WarmUpCount + LoopCount)
    ensures fresh(row0) && fresh(row1) && fresh(row2) && row0 != row1 && row1 != row2 && row0 != row2
    ensures row0[..] == Measured(clock, freq, 0) && row1[..] == Measured(clock, freq, 1) && row2[..] == Measured(clock, freq, 2)
  {
    var fn0 := new Functor(kind, Bk.Default, data, left(0));
    var fn1 := new Functor(kind, Bk.Aligned, data, left(1));
    var fn2 := new Functor(kind, Bk.Sse(bits), data, left(2));
    WarmUp(fn0, fn1, fn2, ext, iterations, clock, freq);
    row0, row1, row2 := MeasureRows(fn0, fn1, fn2, ext, iterations, clock, freq);
  }

  /** Each row sorted in place, and its element at `LoopCount / 2`. */
  method Medians(row0: array<real>, row1: array<real>, row2: array<real>, ghost s0: seq<real>, ghost s1: seq<real>, ghost s2: seq<real>)
    returns (timing: seq<real>)
    requires row0 != row1 && row1 != row2 && row0 != row2
    requires row0.Length == row1.Length == row2.Length == LoopCount
    requires row0[..] == s0 && row1[..] == s1 && row2[..] == s2
    modifies row0, row1, row2
    ensures |timing| == 3 && IsMedianOf(timing[0], s0) && IsMedianOf(timing[1], s1) && IsMedianOf(timing[2], s2)
  {
    var m0 := Median(row0, s0);
    var m1 := Median(row1, s1);
    var m2 := Median(row2, s2);
    timing := [m0, m1, m2];
  }

  /** The warm-up rounds: every backend's functor runs `WarmUpCount` times, untimed. */
  method WarmUp(fn0: Functor, fn1: Functor, fn2: Functor, ext: Externals, iterations: nat, clock: seq<Reading>, freq: int)
    requires fn0.Valid() && fn1.Valid() && fn2.Valid()
    requires iterations <= fn0.input.Length && iterations <= fn1.input.Length && iterations <= fn2.input.Length
    requires freq > 0 && |clock| == 3 * (WarmUpCount + LoopCount)
    modifies fn0.output, fn1.output, fn2.output
  {
    var ii := 0;
    while ii < WarmUpCount
      invariant fn0.Valid() && fn1.Valid() && fn2.Valid()
    {
      var t0 := TimeRun(fn0, ext, iterations, clock[3 * ii], freq);
      var t1 := TimeRun(fn1, ext, iterations, clock[3 * ii + 1], freq);
      var t2 := TimeRun(fn2, ext, iterations, clock[3 * ii + 2], freq);
      ii := ii + 1;
    }
  }

  /** The measured rounds: row `b` holds backend `b`'s timings, round by round. */
  method MeasureRows(fn0: Functor, fn1: Functor, fn2: Functor, ext: Externals, iterations: nat, clock: seq<Reading>, freq: int)
    returns (row0: array<real>, row1: array<real>, row2: array<real>)
    requires fn0.Valid() && fn1.Valid() && fn2.Valid()
    requires iterations <= fn0.input.Length && iterations <= fn1.input.Length && iterations <= fn2.input.Length
    requires freq > 0 && |clock| == 3 * (WarmUpCount + LoopCount)
    modifies fn0.output, fn1.output, fn2.output
    ensures fresh(row0) && fresh(row1) && fresh(row2) && row0 != row1 && row1 != row2 && row0 != row2
    ensures row0[..] == Measured(clock, freq, 0) && row1[..] == Measured(clock, freq, 1) && row2[..] == Measured(clock, freq, 2)
  {
    row0 := new real[LoopCount];
    row1 := new real[LoopCount];
    row2 := new real[LoopCount];
    var ii := 0;
    while ii < LoopCount
      invariant 0 <= ii <= LoopCount
      invariant fn0.Valid() && fn1.Valid() && fn2.Valid()
      invariant forall j :: 0 <= j < ii ==> row0[j] == Measured(clock, freq, 0)[j]
      invariant forall j :: 0 <= j < ii ==> row1[j] == Measured(clock, freq, 1)[j]
      invariant forall j :: 0 <= j < ii ==> row2[j] == Measured(clock, freq, 2)[j]
    {
      MeasuredRound(fn0, fn1, fn2, ext, iterations, clock, freq, ii, row0, row1, row2);
      ii := ii + 1;
    }
  }

  /** Measured round `ii`: each backend's run is timed into its row at `ii`; the rest of the rows is kept. */
  method MeasuredRound(fn0: Functor, fn1: Functor, fn2: Functor, ext: Externals, iterations: nat,
                       clock: seq<Reading>, freq: int, ii: nat, row0: array<real>, row1: array<real>, row2: array<real>)
    requires fn0.Valid() && fn1.Valid() && fn2.Valid()
    requires iterations <= fn0.input.Length && iterations <= fn1.input.Length && iterations <= fn2.input.Length
    requires freq > 0 && |clock| == 3 * (WarmUpCount + LoopCount) && ii < LoopCount
    requires row0.Length == row1.Length == row2.Length == LoopCount
    requires row0 != row1 && row1 != row2 && row0 != row2
    modifies fn0.output, fn1.output, fn2.output, row0, row1, row2
    ensures row0[ii] == Measured(clock, freq, 0)[ii] && row1[ii] == Measured(clock, freq, 1)[ii]
            && row2[ii] == Measured(clock, freq, 2)[ii]
    ensures forall j :: 0 <= j < LoopCount && j != ii ==>
              row0[j] == old(row0[j]) && row1[j] == old(row1[j]) && row2[j] == old(row2[j])
  {
    var at := 3 * WarmUpCount + 3 * ii;
    var t0 := TimeRun(fn0, ext, iterations, clock[at], freq);
    var t1 := TimeRun(fn1, ext, iterations, clock[at + 1], freq);
    var t2 := TimeRun(fn2, ext, iterations, clock[at + 2], freq);
    row0[ii], row1[ii], row2[ii] := t0, t1, t2;
  }

  /** Sorts a row of measured timings in place and takes its element at `LoopCount / 2`. */
  method Median(row: array<real>, ghost measured: seq<real>) returns (m: real)
    requires row.Length == LoopCount && row[..] == measured
    modifies row
    ensures IsMedianOf(m, measured)
  {
    SortRow(row);
    m := row[LoopCount / 2];
    assert |row[..]| == |measured| && row[..][LoopCount / 2] == m;
  }
}
