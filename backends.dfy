// The backends the test programs instantiate their fixtures with: the two
// scalar headers (`default` and `aligned`), the SSE header of
// src/math/Intrinsic.h, and the SSE header at the repository root, either
// with its `!=` as written or as intended. The conformance test includes
// math/Default.h and math/Aligned.h, which are not part of this model: the
// scalar backends are taken to be the lane algebra of module Lanes, which
// the root Default.h and Aligned.h and src/vector/Reference.h share, with
// Reference.h's matrices. Scalars are modelled as the float they hold: the
// SSE Scalar is built from it by broadcast and read back through lane 0.

module Backends {
  import L = Lanes
  import I = Intrinsic
  import LI = LegacyIntrinsic

  datatype Backend = Default | Aligned | Sse(bits: bv32) | RootSse(asWritten: bool)

  /** An SSE backend is compiled for a host whose feature bits it can be built for. */
  predicate Valid(be: Backend)
  {
    be.Sse? ==> I.Buildable(be.bits)
  }

  /** The root SSE header defines no Matrix. */
  predicate HasMatrices(be: Backend)
  {
    !be.RootSse?
  }

  /** The scalar backends compute `Length` and `NormalizeFast` with an exact root. */
  predicate IsScalar(be: Backend)
  {
    be.Default? || be.Aligned?
  }

  /** `==` holds exactly of equal vectors, on every backend. */
  function Eq(be: Backend, a: L.Vec4, b: L.Vec4): (r: bool)
    ensures r <==> a == b
  {
    match be
    case Default => L.Equal(a, b)
    case Aligned => L.Equal(a, b)
    case Sse(_) => I.VecEq(a, b)
    case RootSse(_) => I.VecEq(a, b)
  }

  /**
   * `!=` holds exactly of vectors that differ in some lane, except in the
   * root SSE header as written, where every lane must differ.
   */
  function NotEq(be: Backend, a: L.Vec4, b: L.Vec4): (r: bool)
    ensures be != RootSse(true) ==> (r <==> a != b)
    ensures be == RootSse(true) ==> (r <==> (a.x != b.x && a.y != b.y && a.z != b.z && a.w != b.w))
  {
    match be
    case Default => L.NotEqual(a, b)
    case Aligned => L.NotEqual(a, b)
    case Sse(_) => I.VecNotEq(a, b)
    case RootSse(asWritten) => if asWritten then LI.VecNotEqAsWritten(a, b) else I.VecNotEq(a, b)
  }

  /** `v * s` scales every lane. */
  function MulScalar(be: Backend, v: L.Vec4, s: real): (r: L.Vec4)
    ensures r == L.Scale(v, s)
  {
    match be
    case Sse(_) => I.MulScalar(v, I.ScalarOf(s))
    case RootSse(_) => LI.MulScalar(v, s)
    case _ => L.Scale(v, s)
  }

  /** `s * v` scales every lane. */
  function ScalarMul(be: Backend, s: real, v: L.Vec4): (r: L.Vec4)
    ensures r == L.ScaleLeft(s, v)
  {
    match be
    case Sse(_) => I.ScalarMul(I.ScalarOf(s), v)
    case RootSse(_) => LI.ScalarMul(s, v)
    case _ => L.ScaleLeft(s, v)
  }

  /** `v / s` divides every lane by a non-zero `s`. */
  function DivScalar(be: Backend, v: L.Vec4, s: real): (r: L.Vec4)
    ensures s != 0.0 ==> r == L.Div(v, s)
  {
    match be
    case Sse(_) => I.DivScalar(v, I.ScalarOf(s))
    case RootSse(_) => LI.DivScalar(v, s)
    case _ => L.Div(v, s)
  }

  /** `s + t` of two Scalars is their sum (float arithmetic in the root header). */
  function ScalarAdd(be: Backend, s: real, t: real): (r: real)
    ensures r == s + t
  {
    match be
    case Sse(_) => I.ToFloat(I.ScalarArith(I.Plus, I.ScalarOf(s), I.ScalarOf(t)))
    case _ => s + t
  }

  /** `LengthSqr` is the sum of the squared lanes. */
  function LengthSqr(be: Backend, v: L.Vec4): (r: real)
    requires Valid(be)
    ensures r == L.LengthSqr(v)
  {
    match be
    case Sse(bits) => I.ToFloat(I.LengthSqr(bits, v))
    case RootSse(_) => LI.LengthSqr(v)
    case _ => L.LengthSqr(v)
  }

  /** `Length` is the root of the squared length. */
  function Length(be: Backend, sqrt: real -> real, v: L.Vec4): (r: real)
    requires Valid(be)
    ensures r == sqrt(L.LengthSqr(v))
  {
    match be
    case Sse(bits) => I.ToFloat(I.Length(bits, sqrt, v))
    case RootSse(_) => LI.Length(sqrt, v)
    case _ => L.Length(v, sqrt)
  }

  /** `Normalize` divides by the length. */
  function Normalize(be: Backend, sqrt: real -> real, v: L.Vec4): (r: L.Vec4)
    requires Valid(be)
    ensures r == L.Normalize(v, sqrt)
  {
    match be
    case Sse(bits) => I.Normalize(bits, sqrt, v)
    case RootSse(_) => LI.Normalize(sqrt, v)
    case _ => L.Normalize(v, sqrt)
  }

  /**
   * `NormalizeFast` is `Normalize` on the scalar backends; the SSE backends
   * scale by the approximate reciprocal root `rsqrt` of the squared length.
   */
  function NormalizeFast(be: Backend, sqrt: real -> real, rsqrt: real -> real, v: L.Vec4): (r: L.Vec4)
    requires Valid(be)
    ensures IsScalar(be) ==> r == L.Normalize(v, sqrt)
    ensures !IsScalar(be) ==> r == L.Scale(v, rsqrt(L.LengthSqr(v)))
  {
    match be
    case Sse(bits) => I.NormalizeFast(bits, rsqrt, v)
    case RootSse(_) => LI.NormalizeFast(rsqrt, v)
    case _ => L.NormalizeFast(v, sqrt)
  }

  /** `a * b` of two Vectors is the dot product. */
  function Dot(be: Backend, a: L.Vec4, b: L.Vec4): (r: real)
    requires Valid(be)
    ensures r == L.Dot(a, b)
  {
    match be
    case Sse(bits) => I.ToFloat(I.VecDot(bits, a, b))
    case RootSse(_) => LI.Dot(a, b)
    case _ => L.Dot(a, b)
  }

  /**
   * `a % b` is the cross product of the xyz parts. The scalar backends
   * assert that both w lanes are zero; the SSE backends ignore them.
   */
  function Cross(be: Backend, a: L.Vec4, b: L.Vec4): (r: L.Vec4)
    requires IsScalar(be) ==> a.w == 0.0 && b.w == 0.0
    ensures r == L.Cross(a.(w := 0.0), b.(w := 0.0))
  {
    match be
    case Sse(_) => I.Cross(a, b)
    case RootSse(_) => LI.Cross(a, b)
    case _ => L.Cross(a, b)
  }

  /** Matrix `!=` holds exactly of matrices that differ in some entry. */
  function MatNotEq(be: Backend, a: L.Mat4, b: L.Mat4): (r: bool)
    requires HasMatrices(be)
    ensures r <==> a != b
  {
    match be
    case Sse(_) => I.MatNotEq(a, b)
    case _ => L.MatNotEqual(a, b)
  }

  /** `m * s` scales every entry. */
  function MatMulScalar(be: Backend, m: L.Mat4, s: real): (r: L.Mat4)
    requires HasMatrices(be)
    ensures r == L.MatScale(m, s)
  {
    match be
    case Sse(_) => I.MatMulScalar(m, I.ScalarOf(s))
    case _ => L.MatScale(m, s)
  }

  /** `m / s` divides every entry. */
  function MatDivScalar(be: Backend, m: L.Mat4, s: real): (r: L.Mat4)
    requires HasMatrices(be)
    ensures r == L.MatDiv(m, s)
  {
    match be
    case Sse(_) => I.MatDivScalar(m, I.ScalarOf(s))
    case _ => L.MatDiv(m, s)
  }

  /** `m * v` is the matrix-vector product. */
  function MulVec(be: Backend, m: L.Mat4, v: L.Vec4): (r: L.Vec4)
    requires HasMatrices(be)
    ensures r == L.MulVec(m, v)
  {
    match be
    case Sse(_) => I.MulVec(m, v)
    case _ => L.MulVec(m, v)
  }

  /** `a * b` of two Matrices multiplies each column of `b` by `a`: the matrix product. */
  function MulMat(be: Backend, a: L.Mat4, b: L.Mat4): (r: L.Mat4)
    requires HasMatrices(be)
    ensures forall j :: 0 <= j < 4 ==> L.Column(r, j) == MulVec(be, a, L.Column(b, j))
    ensures r == L.MulMat(a, b)
  {
    match be
    case Sse(_) => I.MulMat(a, b)
    case _ => L.MulMat(a, b)
  }
}
