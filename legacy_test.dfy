// The older test program (Test.cpp at the repository root): five vector
// fixtures run on the root `default`, `aligned` and `intrinsic` headers.
// Its length, dot product and cross product fixtures are those of
// src/test/Conformance.cpp; its comparison fixture compares (1, 2, 3, 4)
// with (2, 3, 4, 5), which differ in every lane, and its algebraic fixture
// has only the first four checks.

module LegacyTests {
  import L = Lanes
  import C = Conformance
  import opened Backends
  import opened Fixtures

  /** `testComparisonT`: `a` compared with itself and with `b`, which differs from it in every lane. */
  function ComparisonTest(be: Backend): (ok: bool)
    ensures ok
  {
    var a, b := Ascending, Shifted;
    !NotEq(be, a, a) && Eq(be, a, a) && !Eq(be, a, b) && NotEq(be, a, b)
  }

  /**
   * The legacy comparison fixture passes on the root SSE header as written,
   * whose `!=` the conformance fixture shows to be wrong: its `b` differs
   * from `a` in every lane, where the defective `!=` agrees with `!=`.
   */
  lemma ComparisonMissesNotEqualDefect()
    ensures ComparisonTest(RootSse(true))
    ensures !C.ComparisonTest(RootSse(true))
  {
  }

  /** `testAlgebraicT`: the sum, difference, product and quotient fixtures. */
  function AlgebraicTest(be: Backend): (ok: bool)
    ensures ok
  {
    var a, b := Ascending, Shifted;
    var c := 0.5;
    SumOfFixtures();
    DifferenceOfFixtures();
    HalfOfAscending();
    AscendingOverHalf();
    && !NotEq(be, L.Add(a, b), L.Vec4(3.0, 5.0, 7.0, 9.0))
    && !NotEq(be, L.Sub(a, b), L.Vec4(-1.0, -1.0, -1.0, -1.0))
    && !NotEq(be, MulScalar(be, a, c), L.Vec4(0.5, 1.0, 1.5, 2.0))
    && !NotEq(be, DivScalar(be, a, c), L.Vec4(2.0, 4.0, 6.0, 8.0))
  }

  datatype Test = TestComparison | TestAlgebraic | TestLength | TestDotProduct | TestCrossProduct

  /**
   * What `Func<Vector>()()` returns on a scalar or root SSE backend: every
   * test passes but the length test, which passes exactly when its checks
   * hold at the corrected tolerance.
   */
  predicate Expected(t: Test, be: Backend, sqrt: real -> real, rsqrt: real -> real)
    requires Valid(be)
  {
    t == TestLength ==> C.LengthTest(be, sqrt, rsqrt, C.FastTolerance)
  }

  /** `Func<Vector>()()`: one test on one backend, the length test with the corrected tolerance. */
  method Run(t: Test, be: Backend, sqrt: real -> real, rsqrt: real -> real) returns (ok: bool)
    requires Valid(be)
    ensures ok == Expected(t, be, sqrt, rsqrt)
  {
    match t
    case TestComparison => ok := ComparisonTest(be);
    case TestAlgebraic => ok := AlgebraicTest(be);
    case TestLength => ok := C.LengthTest(be, sqrt, rsqrt, C.FastTolerance);
    case TestDotProduct => ok := C.DotProductTest(be);
    case TestCrossProduct => ok := C.CrossProductTest(be);
  }

  /** A test passes on the `default`, `aligned` and root `intrinsic` backends. */
  predicate Passes(t: Test, asWritten: bool, sqrt: real -> real, rsqrt: real -> real)
  {
    && Expected(t, Default, sqrt, rsqrt)
    && Expected(t, Aligned, sqrt, rsqrt)
    && Expected(t, RootSse(asWritten), sqrt, rsqrt)
  }

  /**
   * Every test passes on every backend, the root SSE header as written
   * included, when `sqrt` is exact and `rsqrt` within the cited error.
   */
  lemma EveryTestPasses(t: Test, asWritten: bool, sqrt: real -> real, rsqrt: real -> real)
    requires L.IsSqrt(sqrt) && C.RsqrtWithin(rsqrt, C.RsqrtError)
    ensures Passes(t, asWritten, sqrt, rsqrt)
  {
    if t == TestLength {
      C.CorrectedAcceptsDocumentedError(Default, sqrt, rsqrt);
      C.CorrectedAcceptsDocumentedError(Aligned, sqrt, rsqrt);
      C.CorrectedAcceptsDocumentedError(RootSse(asWritten), sqrt, rsqrt);
    }
  }

  /**
   * `testFunc`: the mask starts true and is cleared by each backend
   * (`default`, `aligned`, `intrinsic`) that fails the test.
   */
  method TestFunc(t: Test, asWritten: bool, sqrt: real -> real, rsqrt: real -> real) returns (mask: bool)
    ensures mask == Passes(t, asWritten, sqrt, rsqrt)
  {
    mask := true;
    var ok := Run(t, Default, sqrt, rsqrt);
    if !ok {
      mask := false;
    }
    ok := Run(t, Aligned, sqrt, rsqrt);
    if !ok {
      mask := false;
    }
    ok := Run(t, RootSse(asWritten), sqrt, rsqrt);
    if !ok {
      mask := false;
    }
  }
}
