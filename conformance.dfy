// The conformance tests (src/test/Conformance.cpp). Each fixture is a
// template over a backend's Matrix, Vector and Scalar types; here it is a
// function of the backend. Every check of a fixture that fails makes it
// return false, and it returns true when none fails. Each fixture's
// contract says on which backends it passes.

module Conformance {
  import L = Lanes
  import I = Intrinsic
  import opened Backends
  import opened Fixtures

  /** `testComparisonT`: `b` agrees with `a` in lane 0 and differs in the others. */
  function ComparisonTest(be: Backend): (ok: bool)
    ensures ok <==> be != RootSse(true)
  {
    var a, b := Ascending, PartlyEqual;
    !NotEq(be, a, a) && Eq(be, a, a) && !Eq(be, a, b) && NotEq(be, a, b)
  }

  /** `testAlgebraicT`: the sum, difference, product and quotient fixtures and both distributive laws. */
  function AlgebraicTest(be: Backend): (ok: bool)
    ensures ok
  {
    var a, b := Ascending, Shifted;
    var c, d := 0.5, 3.0;
    SumOfFixtures();
    DifferenceOfFixtures();
    HalfOfAscending();
    AscendingOverHalf();
    L.ScaleDistributes(a, b, c, d);
    && !NotEq(be, L.Add(a, b), L.Vec4(3.0, 5.0, 7.0, 9.0))
    && !NotEq(be, L.Sub(a, b), L.Vec4(-1.0, -1.0, -1.0, -1.0))
    && !NotEq(be, MulScalar(be, a, c), L.Vec4(0.5, 1.0, 1.5, 2.0))
    && !NotEq(be, DivScalar(be, a, c), L.Vec4(2.0, 4.0, 6.0, 8.0))
    && !NotEq(be, ScalarMul(be, c, L.Add(a, b)), L.Add(ScalarMul(be, c, a), ScalarMul(be, c, b)))
    && !NotEq(be, ScalarMul(be, ScalarAdd(be, c, d), a), L.Add(ScalarMul(be, c, a), ScalarMul(be, d, a)))
  }

  /**
   * `testLengthT`: the squared length and length of (1, 2, 3, 4), and the
   * squared lengths of `Normalize` of it and `NormalizeFast` of (2, 3, 4, 5)
   * within 1e-6 and `fastTolerance` of 1.
   */
  function LengthTest(be: Backend, sqrt: real -> real, rsqrt: real -> real, fastTolerance: real): bool
    requires Valid(be)
  {
    var a, b := Ascending, Shifted;
    var asqr := LengthSqr(be, Normalize(be, sqrt, a));
    var bsqr := LengthSqr(be, NormalizeFast(be, sqrt, rsqrt, b));
    && LengthSqr(be, a) == 1.0 + 4.0 + 9.0 + 16.0
    && Length(be, sqrt, a) == sqrt(1.0 + 4.0 + 9.0 + 16.0)
    && !(1.0 - 0.000001 > asqr || asqr > 1.0 + 0.000001)
    && !(1.0 - fastTolerance > bsqr || bsqr > 1.0 + fastTolerance)
  }

  /** A reciprocal square root with relative error at most `e` on the positive reals. */
  ghost predicate RsqrtWithin(rsqrt: real -> real, e: real)
  {
    forall t :: 0.0 < t ==> RsqrtWithinAt(rsqrt, e, t)
  }

  /** At `t`, `rsqrt(t)` is positive and its square times `t` lies within the squared error bounds. */
  ghost predicate RsqrtWithinAt(rsqrt: real -> real, e: real, t: real)
  {
    0.0 < rsqrt(t) && (1.0 - e) * (1.0 - e) <= rsqrt(t) * rsqrt(t) * t <= (1.0 + e) * (1.0 + e)
  }

  /**
   * On an SSE backend, the squared length of `NormalizeFast` of the fixture
   * `b`, whose squared length is 54, is `rsqrt(54)^2 * 54`.
   */
  lemma FastSquaredLength(be: Backend, sqrt: real -> real, rsqrt: real -> real)
    requires Valid(be) && !IsScalar(be)
    ensures LengthSqr(be, NormalizeFast(be, sqrt, rsqrt, Shifted)) == rsqrt(54.0) * rsqrt(54.0) * 54.0
  {
    ShiftedLengthSqr();
    L.ScaledLengthSqr(Shifted, rsqrt(54.0));
  }

  /**
   * The length test passes on the scalar backends for any tolerance, and on
   * the SSE backends whenever the tolerance covers the squared relative
   * error `e` of their reciprocal square root.
   */
  lemma LengthTestPasses(be: Backend, sqrt: real -> real, rsqrt: real -> real, e: real, fastTolerance: real)
    requires Valid(be) && L.IsSqrt(sqrt) && 0.0 <= fastTolerance
    requires !IsScalar(be) ==> RsqrtWithin(rsqrt, e)
    requires !IsScalar(be) ==> 1.0 - fastTolerance <= (1.0 - e) * (1.0 - e) && (1.0 + e) * (1.0 + e) <= 1.0 + fastTolerance
    ensures LengthTest(be, sqrt, rsqrt, fastTolerance)
  {
    LengthChecks(be, sqrt);
    NormalizeCheck(be, sqrt);
    if IsScalar(be) {
      ScalarFastCheck(be, sqrt, rsqrt);
    } else {
      FastWithinTolerance(be, sqrt, rsqrt, e, fastTolerance);
    }
    LengthTestFromChecks(be, sqrt, rsqrt, fastTolerance);
  }

  /** The length test passes when its squared lengths are as expected and the fast one is within the tolerance. */
  lemma LengthTestFromChecks(be: Backend, sqrt: real -> real, rsqrt: real -> real, fastTolerance: real)
    requires Valid(be)
    requires LengthSqr(be, Ascending) == 1.0 + 4.0 + 9.0 + 16.0
    requires Length(be, sqrt, Ascending) == sqrt(1.0 + 4.0 + 9.0 + 16.0)
    requires LengthSqr(be, Normalize(be, sqrt, Ascending)) == 1.0
    requires 1.0 - fastTolerance <= LengthSqr(be, NormalizeFast(be, sqrt, rsqrt, Shifted)) <= 1.0 + fastTolerance
    ensures LengthTest(be, sqrt, rsqrt, fastTolerance)
  {
  }

  /** The length test fails when the squared length of `NormalizeFast` of `b` exceeds `1 + fastTolerance`. */
  lemma LengthTestFailsFast(be: Backend, sqrt: real -> real, rsqrt: real -> real, fastTolerance: real)
    requires Valid(be)
    requires LengthSqr(be, NormalizeFast(be, sqrt, rsqrt, Shifted)) > 1.0 + fastTolerance
    ensures !LengthTest(be, sqrt, rsqrt, fastTolerance)
  {
  }

  /** On an SSE backend the fast squared length is within a tolerance that covers the squared error bounds. */
  lemma FastWithinTolerance(be: Backend, sqrt: real -> real, rsqrt: real -> real, e: real, fastTolerance: real)
    requires Valid(be) && !IsScalar(be) && RsqrtWithin(rsqrt, e)
    requires 1.0 - fastTolerance <= (1.0 - e) * (1.0 - e) && (1.0 + e) * (1.0 + e) <= 1.0 + fastTolerance
    ensures 1.0 - fastTolerance <= LengthSqr(be, NormalizeFast(be, sqrt, rsqrt, Shifted)) <= 1.0 + fastTolerance
  {
    FastSquaredLength(be, sqrt, rsqrt);
    RsqrtAt(rsqrt, e, 54.0);
  }

  /** The squared length and the length of `a` are 30 and `sqrt(30)` on every backend. */
  lemma LengthChecks(be: Backend, sqrt: real -> real)
    requires Valid(be)
    ensures LengthSqr(be, Ascending) == 1.0 + 4.0 + 9.0 + 16.0
    ensures Length(be, sqrt, Ascending) == sqrt(1.0 + 4.0 + 9.0 + 16.0)
  {
    AscendingLengthSqr();
  }

  /** `Normalize` of `a` has squared length 1 on every backend. */
  lemma NormalizeCheck(be: Backend, sqrt: real -> real)
    requires Valid(be) && L.IsSqrt(sqrt)
    ensures LengthSqr(be, Normalize(be, sqrt, Ascending)) == 1.0
  {
    AscendingLengthSqr();
    L.NormalizeIsUnit(Ascending, sqrt);
  }

  /** On the scalar backends `NormalizeFast` of `b` has squared length 1. */
  lemma ScalarFastCheck(be: Backend, sqrt: real -> real, rsqrt: real -> real)
    requires Valid(be) && IsScalar(be) && L.IsSqrt(sqrt)
    ensures LengthSqr(be, NormalizeFast(be, sqrt, rsqrt, Shifted)) == 1.0
  {
    ShiftedLengthSqr();
    L.NormalizeIsUnit(Shifted, sqrt);
  }

  /** The error bound of `rsqrt` at one point. */
  lemma RsqrtAt(rsqrt: real -> real, e: real, t: real)
    requires RsqrtWithin(rsqrt, e) && 0.0 < t
    ensures RsqrtWithinAt(rsqrt, e, t)
  {
  }

  /** The relative error bound of `rsqrtps` the test cites: 1.5 * 2^-12. */
  const RsqrtError: real := 0.0003662109375

  /** The tolerance of the `NormalizeFast` check as written. */
  const FastToleranceAsWritten: real := 0.0003

  /** A tolerance that covers the cited bound: `(1 + 1.5 * 2^-12)^2 - 1 < 7.5e-4`. */
  const FastTolerance: real := 0.00075

  /** The reciprocal square root that is off by the factor `1 + e` everywhere. */
  function Skewed(sqrt: real -> real, e: real): real -> real
  {
    t => L.Quot(1.0 + e, sqrt(t))
  }

  /** `Skewed(sqrt, e)` has relative error exactly `e`. */
  lemma SkewedWithin(sqrt: real -> real, e: real)
    requires L.IsSqrt(sqrt) && 0.0 <= e
    ensures RsqrtWithin(Skewed(sqrt, e), e)
  {
    forall t | 0.0 < t
      ensures RsqrtWithinAt(Skewed(sqrt, e), e, t)
    {
      L.SqrtAt(sqrt, t);
      SkewedAt(sqrt(t), t, 1.0 + e);
      SkewedPoint(sqrt, e, t);
    }
  }

  /** Where `(1 + e) / sqrt(t)` squared times `t` is `(1 + e)^2`, `Skewed(sqrt, e)` is within `e` at `t`. */
  lemma SkewedPoint(sqrt: real -> real, e: real, t: real)
    requires 0.0 <= e
    requires 0.0 < L.Quot(1.0 + e, sqrt(t)) && L.Quot(1.0 + e, sqrt(t)) * L.Quot(1.0 + e, sqrt(t)) * t == (1.0 + e) * (1.0 + e)
    ensures RsqrtWithinAt(Skewed(sqrt, e), e, t)
  {
    SkewedApplied(sqrt, e, t);
    WithinAtFromSquare(Skewed(sqrt, e), e, t);
  }

  lemma SkewedApplied(sqrt: real -> real, e: real, t: real)
    ensures Skewed(sqrt, e)(t) == L.Quot(1.0 + e, sqrt(t))
  {
  }

  /** A positive `rsqrt(t)` whose square times `t` is `(1 + e)^2` is within `e` at `t`. */
  lemma WithinAtFromSquare(rsqrt: real -> real, e: real, t: real)
    requires 0.0 <= e && 0.0 < rsqrt(t) && rsqrt(t) * rsqrt(t) * t == (1.0 + e) * (1.0 + e)
    ensures RsqrtWithinAt(rsqrt, e, t)
  {
    SquaresOrdered(e);
  }

  /** `(1 - e)^2 <= (1 + e)^2` for a non-negative `e`. */
  lemma SquaresOrdered(e: real)
    requires 0.0 <= e
    ensures (1.0 - e) * (1.0 - e) <= (1.0 + e) * (1.0 + e)
  {
  }

  /** `k = c / s` with `s` the non-negative root of a positive `t` gives `k > 0` and `k * k * t == c * c`. */
  lemma SkewedAt(s: real, t: real, c: real)
    requires 0.0 < t && 0.0 <= s && s * s == t && 0.0 < c
    ensures 0.0 < L.Quot(c, s) && L.Quot(c, s) * L.Quot(c, s) * t == c * c
  {
    var k := L.Quot(c, s);
    assert 0.0 < s;
    assert k * s == c;
    assert k * k * t == (k * s) * (k * s);
    PositiveFactor(k, s);
  }

  /** A product that is positive with one factor positive has the other factor positive. */
  lemma PositiveFactor(k: real, s: real)
    requires 0.0 < s && 0.0 < k * s
    ensures 0.0 < k
  {
  }

  /**
   * As written, an SSE backend fails the length test with a reciprocal
   * square root whose error at 54, the squared length of `b`, is the whole
   * bound the test cites.
   */
  lemma DocumentedErrorFailsAsWritten(be: Backend, sqrt: real -> real, rsqrt: real -> real)
    requires Valid(be) && !IsScalar(be)
    requires rsqrt(54.0) * rsqrt(54.0) * 54.0 == (1.0 + RsqrtError) * (1.0 + RsqrtError)
    ensures !LengthTest(be, sqrt, rsqrt, FastToleranceAsWritten)
  {
    FastSquaredLength(be, sqrt, rsqrt);
    LengthTestFailsFast(be, sqrt, rsqrt, FastToleranceAsWritten);
  }

  /** `Skewed(sqrt, e)` is within `e` everywhere and off by the whole factor `1 + e` at 54. */
  lemma SkewedAtTheBound(sqrt: real -> real, e: real)
    requires L.IsSqrt(sqrt) && 0.0 <= e
    ensures RsqrtWithin(Skewed(sqrt, e), e)
    ensures Skewed(sqrt, e)(54.0) * Skewed(sqrt, e)(54.0) * 54.0 == (1.0 + e) * (1.0 + e)
  {
    SkewedWithin(sqrt, e);
    L.SqrtAt(sqrt, 54.0);
    SkewedAt(sqrt(54.0), 54.0, 1.0 + e);
    SkewedApplied(sqrt, e, 54.0);
  }

  /** As written, the length test accepts a reciprocal square root within 2^-13. */
  lemma AsWrittenAcceptsHalfTheError(be: Backend, sqrt: real -> real, rsqrt: real -> real)
    requires Valid(be) && L.IsSqrt(sqrt) && RsqrtWithin(rsqrt, 0.0001220703125)
    ensures LengthTest(be, sqrt, rsqrt, FastToleranceAsWritten)
  {
    LengthTestPasses(be, sqrt, rsqrt, 0.0001220703125, FastToleranceAsWritten);
  }

  /** With the corrected tolerance, any reciprocal square root within the cited bound passes. */
  lemma CorrectedAcceptsDocumentedError(be: Backend, sqrt: real -> real, rsqrt: real -> real)
    requires Valid(be) && L.IsSqrt(sqrt) && RsqrtWithin(rsqrt, RsqrtError)
    ensures LengthTest(be, sqrt, rsqrt, FastTolerance)
  {
    LengthTestPasses(be, sqrt, rsqrt, RsqrtError, FastTolerance);
  }

  /** `testDotProductT`: (1, 2, 3, 4) * (2, 3, 4, 5) == 40. */
  function DotProductTest(be: Backend): (ok: bool)
    requires Valid(be)
    ensures ok
  {
    var a, b := Ascending, Shifted;
    DotOfFixtures();
    Dot(be, a, b) == 2.0 + 6.0 + 12.0 + 20.0
  }

  /** `testCrossProductT`: (2, 0, 0, 0) % (0, 3, 0, 0) == (0, 0, 6, 0), and `a % b + b % a` is zero. */
  function CrossProductTest(be: Backend): (ok: bool)
    ensures ok
  {
    var a, b := AlongX, AlongY;
    CrossOfAxes();
    CrossOfAxesSwapped();
    && !NotEq(be, Cross(be, a, b), L.Vec4(0.0, 0.0, 6.0, 0.0))
    && !NotEq(be, L.Add(Cross(be, a, b), Cross(be, b, a)), L.Vec4(0.0, 0.0, 0.0, 0.0))
  }

  /** Every backend with matrices scales the fixture `A` to `B` and divides `B` back to `A`. */
  lemma ScalesFixture(be: Backend)
    requires HasMatrices(be)
    ensures MatMulScalar(be, Counting, 2.0) == Doubled && MatDivScalar(be, Doubled, 2.0) == Counting
  {
    CountingDoubled();
    DoubledHalved();
  }

  /** Every backend with matrices maps `x` to itself by `I` and to `y` by the permutation. */
  lemma MapsFixture(be: Backend)
    requires HasMatrices(be)
    ensures MulVec(be, Identity, Ascending) == Ascending && MulVec(be, Permutation, Ascending) == Permuted
  {
    PermutationMaps(Ascending);
  }

  /** On the fixtures, every backend's matrix-vector product is additive. */
  lemma AdditiveOnFixture(be: Backend)
    requires HasMatrices(be)
    ensures L.Add(MulVec(be, Permutation, Ascending), MulVec(be, Permutation, Permuted))
            == MulVec(be, Permutation, L.Add(Ascending, Permuted))
  {
    L.MulVecAdditive(Permutation, Ascending, Permuted);
  }

  /** On the fixtures, every backend's matrix-vector product commutes with the Scalar product. */
  lemma HomogeneousOnFixture(be: Backend)
    requires HasMatrices(be)
    ensures MulVec(be, Permutation, MulScalar(be, Ascending, 0.5)) == MulScalar(be, MulVec(be, Permutation, Ascending), 0.5)
  {
    L.MulVecHomogeneous(Permutation, Ascending, 0.5);
  }

  /** Every backend with matrices multiplies the fixtures `A` and `B` to `C`. */
  lemma MultipliesFixture(be: Backend)
    requires HasMatrices(be)
    ensures MulMat(be, Counting, Permutation) == Product
  {
    CountingTimesPermutation();
  }

  /** On the fixtures, every backend's matrix product composes the linear maps. */
  lemma ComposesOnFixture(be: Backend)
    requires HasMatrices(be)
    ensures MulVec(be, MulMat(be, Permutation, Counting), Ascending) == MulVec(be, Permutation, MulVec(be, Counting, Ascending))
  {
    L.MulMatComposes(Permutation, Counting, Ascending);
  }

  /** `testMatrixScalarProductT`: A * 2 == B and B / 2 == A. */
  function MatrixScalarProductTest(be: Backend): (ok: bool)
    requires HasMatrices(be)
    ensures ok
  {
    ScalesFixture(be);
    !MatNotEq(be, MatMulScalar(be, Counting, 2.0), Doubled) && !MatNotEq(be, MatDivScalar(be, Doubled, 2.0), Counting)
  }

  /** `testMatrixVectorProductT`, check by check: each holds on every backend with matrices. */
  lemma IdentityCheck(be: Backend)
    requires HasMatrices(be)
    ensures !NotEq(be, MulVec(be, Identity, Ascending), Ascending)
  {
    MapsFixture(be);
  }

  lemma PermutationCheck(be: Backend)
    requires HasMatrices(be)
    ensures !NotEq(be, MulVec(be, Permutation, Ascending), Permuted)
  {
    MapsFixture(be);
  }

  lemma AdditiveCheck(be: Backend)
    requires HasMatrices(be)
    ensures !NotEq(be, L.Add(MulVec(be, Permutation, Ascending), MulVec(be, Permutation, Permuted)),
                   MulVec(be, Permutation, L.Add(Ascending, Permuted)))
  {
    AdditiveOnFixture(be);
  }

  lemma HomogeneousCheck(be: Backend)
    requires HasMatrices(be)
    ensures !NotEq(be, MulVec(be, Permutation, MulScalar(be, Ascending, 0.5)), MulScalar(be, MulVec(be, Permutation, Ascending), 0.5))
  {
    HomogeneousOnFixture(be);
  }

  /**
   * `testMatrixVectorProductT`: I * x == x, the permutation gives
   * A * x == (4, 3, 1, 2), A * x + A * y == A * (x + y), and
   * A * (x * z) == (A * x) * z.
   */
  function MatrixVectorProductTest(be: Backend): (ok: bool)
    requires HasMatrices(be)
    ensures ok
  {
    IdentityCheck(be);
    PermutationCheck(be);
    AdditiveCheck(be);
    HomogeneousCheck(be);
    && !NotEq(be, MulVec(be, Identity, Ascending), Ascending)
    && !NotEq(be, MulVec(be, Permutation, Ascending), Permuted)
    && !NotEq(be, L.Add(MulVec(be, Permutation, Ascending), MulVec(be, Permutation, Permuted)),
              MulVec(be, Permutation, L.Add(Ascending, Permuted)))
    && !NotEq(be, MulVec(be, Permutation, MulScalar(be, Ascending, 0.5)), MulScalar(be, MulVec(be, Permutation, Ascending), 0.5))
  }

  /** `testMatrixMatrixProductT`, check by check. */
  lemma ProductCheck(be: Backend)
    requires HasMatrices(be)
    ensures !MatNotEq(be, MulMat(be, Counting, Permutation), Product)
  {
    MultipliesFixture(be);
  }

  lemma CompositionCheck(be: Backend)
    requires HasMatrices(be)
    ensures !NotEq(be, MulVec(be, MulMat(be, Permutation, Counting), Ascending), MulVec(be, Permutation, MulVec(be, Counting, Ascending)))
  {
    ComposesOnFixture(be);
  }

  /** `testMatrixMatrixProductT`: A * B == C for the fixtures, and (B * A) * x == B * (A * x). */
  function MatrixMatrixProductTest(be: Backend): (ok: bool)
    requires HasMatrices(be)
    ensures ok
  {
    ProductCheck(be);
    CompositionCheck(be);
    && !MatNotEq(be, MulMat(be, Counting, Permutation), Product)
    && !NotEq(be, MulVec(be, MulMat(be, Permutation, Counting), Ascending), MulVec(be, Permutation, MulVec(be, Counting, Ascending)))
  }

  // ---------------------------------------------------------------------
  // Running the tests on every backend.

  datatype Test = TestComparison | TestAlgebraic | TestLength | TestDotProduct | TestCrossProduct
                | TestMatrixScalarProduct | TestMatrixVectorProduct | TestMatrixMatrixProduct

  /**
   * What `Func<M, V, S>()()` returns on a backend with matrices: every test
   * passes but the length test, which passes exactly when its checks hold
   * at the corrected tolerance.
   */
  predicate Expected(t: Test, be: Backend, sqrt: real -> real, rsqrt: real -> real)
    requires Valid(be)
  {
    t == TestLength ==> LengthTest(be, sqrt, rsqrt, FastTolerance)
  }

  /** `Func<M, V, S>()()`: one test on one backend, the length test with the corrected tolerance. */
  method Run(t: Test, be: Backend, sqrt: real -> real, rsqrt: real -> real) returns (ok: bool)
    requires Valid(be) && HasMatrices(be)
    ensures ok == Expected(t, be, sqrt, rsqrt)
  {
    match t
    case TestComparison => ok := ComparisonTest(be);
    case TestAlgebraic => ok := AlgebraicTest(be);
    case TestLength => ok := LengthTest(be, sqrt, rsqrt, FastTolerance);
    case TestDotProduct => ok := DotProductTest(be);
    case TestCrossProduct => ok := CrossProductTest(be);
    case TestMatrixScalarProduct => ok := MatrixScalarProductTest(be);
    case TestMatrixVectorProduct => ok := MatrixVectorProductTest(be);
    case TestMatrixMatrixProduct => ok := MatrixMatrixProductTest(be);
  }

  /** A test passes on the `default`, `aligned` and `intrinsic` backends. */
  predicate Passes(t: Test, bits: bv32, sqrt: real -> real, rsqrt: real -> real)
    requires I.Buildable(bits)
  {
    && Expected(t, Default, sqrt, rsqrt)
    && Expected(t, Aligned, sqrt, rsqrt)
    && Expected(t, Sse(bits), sqrt, rsqrt)
  }

  /** Every test passes on every backend when `sqrt` is exact and `rsqrt` within the cited error. */
  lemma EveryTestPasses(t: Test, bits: bv32, sqrt: real -> real, rsqrt: real -> real)
    requires I.Buildable(bits) && L.IsSqrt(sqrt) && RsqrtWithin(rsqrt, RsqrtError)
    ensures Passes(t, bits, sqrt, rsqrt)
  {
    if t == TestLength {
      CorrectedAcceptsDocumentedError(Default, sqrt, rsqrt);
      CorrectedAcceptsDocumentedError(Aligned, sqrt, rsqrt);
      CorrectedAcceptsDocumentedError(Sse(bits), sqrt, rsqrt);
    }
  }

  /**
   * `testFunc`: the mask starts true and is cleared by each backend
   * (`default`, `aligned`, `intrinsic`) that fails the test.
   */
  method TestFunc(t: Test, bits: bv32, sqrt: real -> real, rsqrt: real -> real) returns (mask: bool)
    requires I.Buildable(bits)
    ensures mask == Passes(t, bits, sqrt, rsqrt)
  {
    mask := true;
    var ok := Run(t, Default, sqrt, rsqrt);
    if !ok {
      mask := false;
    }
    ok := Run(t, Aligned, sqrt, rsqrt);
    if !ok {
      mask := false;
    }
    ok := Run(t, Sse(bits), sqrt, rsqrt);
    if !ok {
      mask := false;
    }
  }

  /** `testMatrixProduct`: the three matrix tests, each run on every backend, all pass. */
  method TestMatrixProduct(bits: bv32, sqrt: real -> real, rsqrt: real -> real) returns (ok: bool)
    requires I.Buildable(bits)
    ensures ok
  {
    var b1 := TestFunc(TestMatrixScalarProduct, bits, sqrt, rsqrt);
    var b2 := TestFunc(TestMatrixVectorProduct, bits, sqrt, rsqrt);
    var b3 := TestFunc(TestMatrixMatrixProduct, bits, sqrt, rsqrt);
    ok := b1 && b2 && b3;
  }
}
