// The first SSE backend (Intrinsic.h at the repository root): a Vector over
// one __m128 register with `float` scalars, built for SSE4.1 (`dpps`). Its
// shuffle macro takes the lane selectors from lane 0 up, the reverse of the
// later `SHUFPS(w, z, y, x)`.

module LegacyIntrinsic {
  import L = Lanes
  import S = Sse
  import I = Intrinsic

  /** `SHUFPS(x, y, z, w)`: `x` picks lane 0 and `w` lane 3. */
  function Shufps(x: bv8, y: bv8, z: bv8, w: bv8): (imm: bv8)
    requires x < 4 && y < 4 && z < 4 && w < 4
    ensures imm == S.Pack(x as nat, y as nat, z as nat, w as nat)
    ensures imm == I.Shufps(w, z, y, x)
  {
    (x << 0) | (y << 2) | (z << 4) | (w << 6)
  }

  /**
   * `!=` as written: the movemask of `cmpneq` must be 0xf, so the operator
   * holds only when every lane differs.
   */
  function VecNotEqAsWritten(a: L.Vec4, b: L.Vec4): (r: bool)
    ensures r <==> (a.x != b.x && a.y != b.y && a.z != b.z && a.w != b.w)
  {
    S.CmpNeqMask(a, b) == 0xf
  }

  /** Vectors that differ in some lane but agree in another are reported as not unequal. */
  lemma NotEqAsWrittenMissesPartialDifference()
    ensures var a, b := L.Vec4(1.0, 2.0, 3.0, 4.0), L.Vec4(1.0, 1.0, 2.0, 3.0);
            a != b && !VecNotEqAsWritten(a, b) && !I.VecEq(a, b)
  {
  }

  /** `v * s`: the float broadcast and multiplied lane-wise. */
  function MulScalar(v: L.Vec4, s: real): (r: L.Vec4)
    ensures r == L.Scale(v, s)
  {
    L.Hadamard(v, S.Set1(s))
  }

  /** `s * v` is defined as `v * s`. */
  function ScalarMul(s: real, v: L.Vec4): (r: L.Vec4)
    ensures r == L.ScaleLeft(s, v)
  {
    MulScalar(v, s)
  }

  /** `v / s`: a product with the broadcast reciprocal `1 / s`. */
  function DivScalar(v: L.Vec4, s: real): (r: L.Vec4)
    ensures s != 0.0 ==> r == L.Div(v, s)
  {
    if s != 0.0 then
      I.QuotScale(1.0, s, v.x);
      I.QuotScale(1.0, s, v.y);
      I.QuotScale(1.0, s, v.z);
      I.QuotScale(1.0, s, v.w);
      L.Hadamard(v, S.Set1(L.Quot(1.0, s)))
    else
      L.Hadamard(v, S.Set1(L.Quot(1.0, s)))
  }

  /** `Length`: `sqrt_ss` of the dot product in lane 0 (`dpps` mask 0xf1). */
  function Length(sqrt: real -> real, v: L.Vec4): (r: real)
    ensures r == L.Length(v, sqrt)
  {
    S.Cvtss(S.SqrtSs(sqrt, S.Dp(v, v, 0xf1)))
  }

  /** `LengthFast`: the squared length times its approximate reciprocal root, in lane 0. */
  function LengthFast(rsqrt: real -> real, v: L.Vec4): (r: real)
    ensures r == L.LengthSqr(v) * rsqrt(L.LengthSqr(v))
  {
    var lsqr := S.Dp(v, v, 0xf1);
    S.Cvtss(S.MulSs(lsqr, S.RsqrtSs(rsqrt, lsqr)))
  }

  /** `LengthSqr`: lane 0 of `dpps` with mask 0xf1. */
  function LengthSqr(v: L.Vec4): (r: real)
    ensures r == L.LengthSqr(v)
  {
    S.Cvtss(S.Dp(v, v, 0xf1))
  }

  /** `Normalize`: the vector divided by the root of the broadcast dot product (mask 0xff). */
  function Normalize(sqrt: real -> real, v: L.Vec4): (r: L.Vec4)
    ensures r == L.Normalize(v, sqrt)
  {
    S.DivPs(v, S.SqrtPs(sqrt, S.Dp(v, v, 0xff)))
  }

  /** `NormalizeFast`: the vector times the approximate reciprocal root. */
  function NormalizeFast(rsqrt: real -> real, v: L.Vec4): (r: L.Vec4)
    ensures r == L.Scale(v, rsqrt(L.LengthSqr(v)))
  {
    L.Hadamard(v, S.RsqrtPs(rsqrt, S.Dp(v, v, 0xff)))
  }

  /** `a * b`: lane 0 of `dpps` with mask 0xf1. */
  function Dot(a: L.Vec4, b: L.Vec4): (r: real)
    ensures r == L.Dot(a, b)
  {
    S.Cvtss(S.Dp(a, b, 0xf1))
  }

  /** `a % b`: the cross product with the selectors written from lane 0 up; same result as the later header. */
  function Cross(a: L.Vec4, b: L.Vec4): (r: L.Vec4)
    ensures r == L.Cross(a.(w := 0.0), b.(w := 0.0))
    ensures r == I.Cross(a, b)
  {
    var shuf1 := S.Shuffle(a, a, Shufps(2, 0, 1, 3));
    var shuf2 := S.Shuffle(a, a, Shufps(1, 2, 0, 3));
    var prod1 := L.Hadamard(shuf1, b);
    var prod2 := L.Hadamard(shuf2, b);
    var shuf3 := S.Shuffle(prod1, prod1, Shufps(2, 0, 1, 3));
    var shuf4 := S.Shuffle(prod2, prod2, Shufps(1, 2, 0, 3));
    L.Sub(shuf3, shuf4)
  }
}
