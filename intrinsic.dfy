// The SSE backend of the vector library (src/vector/Intrinsic.h): Scalar,
// VectorScalar, Vector and Matrix over __m128 registers. Every operation is
// written with the instructions the header uses and proved equal to the lane
// algebra of module Lanes. Which dot-product sequence is compiled depends on
// the build's feature bits; the result is the same for all of them.

module Intrinsic {
  import L = Lanes
  import S = Sse
  import F = Features

  /** The header refuses to compile without SSE. */
  predicate Buildable(bits: bv32)
  {
    F.HasFeature(bits, F.F_SSE)
  }

  /**
   * `SHUFPS(w, z, y, x)`: the shuffle immediate, arguments from the most
   * significant selector down, so `x` picks lane 0 and `w` lane 3.
   */
  function Shufps(w: bv8, z: bv8, y: bv8, x: bv8): (imm: bv8)
    requires w < 4 && z < 4 && y < 4 && x < 4
    ensures imm == S.Pack(x as nat, y as nat, z as nat, w as nat)
  {
    (w << 6) | (z << 4) | (y << 2) | (x << 0)
  }

  // ---------------------------------------------------------------------
  // Scalar: a register holding one value in all four lanes.

  /** The float constructor broadcasts its argument. */
  function ScalarOf(f: real): (r: L.Vec4)
    ensures S.IsBroadcast(r)
    ensures ToFloat(r) == f
  {
    S.Set1(f)
  }

  /** `explicit operator float`: lane 0. */
  function ToFloat(s: L.Vec4): real
  {
    S.Cvtss(s)
  }

  /**
   * The debug check of the private register constructor: rotating the lanes
   * by one leaves the register unchanged exactly when all lanes are equal.
   */
  function ScalarCheck(v: L.Vec4): (ok: bool)
    ensures ok <==> S.IsBroadcast(v)
  {
    S.CmpEqMask(S.Shuffle(v, v, Shufps(0, 3, 2, 1)), v) == 15
  }

  /** The six comparison operators of Scalar. */
  datatype Cmp = Eq | Ne | Lt | Gt | Le | Ge

  /** The comparison `a op b` on two lane values. */
  predicate Holds(op: Cmp, a: real, b: real)
  {
    match op
    case Eq => a == b
    case Ne => a != b
    case Lt => a < b
    case Gt => a > b
    case Le => a <= b
    case Ge => a >= b
  }

  /** The comparison that holds of `(b, a)` exactly when `op` holds of `(a, b)`. */
  function Mirror(op: Cmp): (r: Cmp)
    ensures forall a, b :: Holds(r, b, a) <==> Holds(op, a, b)
  {
    match op
    case Eq => Eq
    case Ne => Ne
    case Lt => Gt
    case Gt => Lt
    case Le => Ge
    case Ge => Le
  }

  /** `a op b` for two Scalars: the `comi??_ss` instruction of `op` on lane 0. */
  function ScalarCompare(op: Cmp, a: L.Vec4, b: L.Vec4): (r: bool)
    ensures r <==> Holds(op, ToFloat(a), ToFloat(b))
  {
    match op
    case Eq => S.ComiEq(a, b)
    case Ne => S.ComiNeq(a, b)
    case Lt => S.ComiLt(a, b)
    case Gt => S.ComiGt(a, b)
    case Le => S.ComiLe(a, b)
    case Ge => S.ComiGe(a, b)
  }

  /** `a op b` with a float on the left: the float is loaded with `set_ss`. */
  function FloatCompare(op: Cmp, a: real, b: L.Vec4): (r: bool)
    requires op in {Lt, Gt, Le, Ge}
    ensures r <==> Holds(op, a, ToFloat(b))
  {
    ScalarCompare(op, S.SetSs(a), b)
  }

  /** Unary minus: `0 - v` in every lane. */
  function ScalarNeg(a: L.Vec4): (r: L.Vec4)
    requires S.IsBroadcast(a)
    ensures S.IsBroadcast(r) && ToFloat(r) == -ToFloat(a)
  {
    L.Sub(S.SetZero, a)
  }

  /** The four arithmetic operators of Scalar. */
  datatype Arith = Plus | Minus | Times | Over

  /** The operator on two lane values; division by zero is `Lanes.Quot`'s placeholder. */
  function Apply(op: Arith, a: real, b: real): real
  {
    match op
    case Plus => a + b
    case Minus => a - b
    case Times => a * b
    case Over => L.Quot(a, b)
  }

  /** The packed instruction of each operator, lane by lane. */
  function Packed(op: Arith, a: L.Vec4, b: L.Vec4): L.Vec4
  {
    match op
    case Plus => L.Add(a, b)
    case Minus => L.Sub(a, b)
    case Times => L.Hadamard(a, b)
    case Over => S.DivPs(a, b)
  }

  /** `a op b` for two Scalars: the result is again a broadcast register. */
  function ScalarArith(op: Arith, a: L.Vec4, b: L.Vec4): (r: L.Vec4)
    requires S.IsBroadcast(a) && S.IsBroadcast(b)
    ensures r == S.Set1(Apply(op, ToFloat(a), ToFloat(b)))
  {
    Packed(op, a, b)
  }

  /** `f op s` with a float on the left: the float is broadcast with `set_ps1` first. */
  function FloatArith(op: Arith, f: real, b: L.Vec4): (r: L.Vec4)
    requires S.IsBroadcast(b)
    ensures r == S.Set1(Apply(op, f, ToFloat(b)))
  {
    Packed(op, S.Set1(f), b)
  }

  /** The magnitude of a lane: `andnot` with -0.0 clears the sign bit. */
  function Magnitude(a: real): (r: real)
    ensures r >= 0.0 && (r == a || r == -a)
  {
    if a < 0.0 then -a else a
  }

  /** `abs`: the sign bit of every lane cleared. */
  function ScalarAbs(a: L.Vec4): (r: L.Vec4)
    requires S.IsBroadcast(a)
    ensures S.IsBroadcast(r) && ToFloat(r) >= 0.0
    ensures ToFloat(r) == ToFloat(a) || ToFloat(r) == -ToFloat(a)
  {
    L.Vec4(Magnitude(a.x), Magnitude(a.y), Magnitude(a.z), Magnitude(a.w))
  }

  /** `sqrt`: `sqrtps` on the broadcast register. */
  function ScalarSqrt(sqrt: real -> real, a: L.Vec4): (r: L.Vec4)
    requires S.IsBroadcast(a)
    ensures S.IsBroadcast(r) && ToFloat(r) == sqrt(ToFloat(a))
  {
    S.SqrtPs(sqrt, a)
  }

  /** `exp` and `pow` go through `float`: the library function on lane 0, broadcast back. */
  function ScalarExp(exp: real -> real, a: L.Vec4): (r: L.Vec4)
    ensures S.IsBroadcast(r) && ToFloat(r) == exp(ToFloat(a))
  {
    ScalarOf(exp(S.Cvtss(a)))
  }

  function ScalarPow(pow: (real, real) -> real, a: L.Vec4, b: L.Vec4): (r: L.Vec4)
    ensures S.IsBroadcast(r) && ToFloat(r) == pow(ToFloat(a), ToFloat(b))
  {
    ScalarOf(pow(S.Cvtss(a), S.Cvtss(b)))
  }

  // ---------------------------------------------------------------------
  // VectorScalar: the proxy returned by the mutable `operator[]`.

  /**
   * `operator Scalar` and the constant `operator[]`: lane `index` shuffled
   * into all four lanes.
   */
  function Broadcast(v: L.Vec4, index: nat): (r: L.Vec4)
    requires index < 4
    ensures r == S.Set1(L.Lane(v, index))
    ensures ScalarCheck(r)
  {
    if index == 0 then S.Shuffle(v, v, Shufps(0, 0, 0, 0))
    else if index == 1 then S.Shuffle(v, v, Shufps(1, 1, 1, 1))
    else if index == 2 then S.Shuffle(v, v, Shufps(2, 2, 2, 2))
    else S.Shuffle(v, v, Shufps(3, 3, 3, 3))
  }

  /**
   * `v[index] op s`. The proxy is converted to a Scalar and compared with
   * the operands swapped (`v[i] < s` is `s > v[i]`).
   */
  function LaneCompare(op: Cmp, v: L.Vec4, index: nat, s: L.Vec4): (r: bool)
    requires index < 4
    ensures r <==> Holds(op, L.Lane(v, index), ToFloat(s))
  {
    ScalarCompare(Mirror(op), s, Broadcast(v, index))
  }

  /** `AssignX::op`: lane 0 of `s` into lane 0 of `v`. */
  function AssignX(v: L.Vec4, s: L.Vec4): (r: L.Vec4)
    ensures r == L.WithLane(v, 0, s.x)
  {
    var r1 := S.MoveLH(s, v);
    S.Shuffle(r1, v, Shufps(3, 2, 3, 0))
  }

  /** `AssignY::op`: lane 1 of `s` into lane 1 of `v`. */
  function AssignY(v: L.Vec4, s: L.Vec4): (r: L.Vec4)
    ensures r == L.WithLane(v, 1, s.y)
  {
    var r1 := S.MoveLH(s, v);
    S.Shuffle(r1, v, Shufps(3, 2, 1, 2))
  }

  /** `AssignZ::op`: lane 2 of `s` into lane 2 of `v`. */
  function AssignZ(v: L.Vec4, s: L.Vec4): (r: L.Vec4)
    ensures r == L.WithLane(v, 2, s.z)
  {
    var r1 := S.MoveHL(s, v);
    S.Shuffle(v, r1, Shufps(1, 2, 1, 0))
  }

  /** `AssignW::op`: lane 3 of `s` into lane 3 of `v`. */
  function AssignW(v: L.Vec4, s: L.Vec4): (r: L.Vec4)
    ensures r == L.WithLane(v, 3, s.w)
  {
    var r1 := S.MoveHL(s, v);
    S.Shuffle(v, r1, Shufps(3, 0, 1, 0))
  }

  /** The `__m128` member of a Vector that a proxy refers to. */
  class Register {
    var value: L.Vec4

    constructor(v: L.Vec4)
      ensures value == v
    {
      value := v;
    }
  }

  /** A reference to one lane of a Vector's register. */
  class VectorScalar {
    const reg: Register
    const index: nat

    constructor(reg: Register, index: nat)
      requires index < 4
      ensures this.reg == reg && this.index == index
    {
      this.reg := reg;
      this.index := index;
    }

    /** `operator Scalar`: the referenced lane, broadcast. */
    function Get(): (r: L.Vec4)
      requires index < 4
      reads reg
      ensures r == S.Set1(L.Lane(reg.value, index))
    {
      Broadcast(reg.value, index)
    }

    /** `operator=`: lane `index` of the register becomes the Scalar; the others keep their values. */
    method Assign(s: L.Vec4)
      requires index < 4 && S.IsBroadcast(s)
      modifies reg
      ensures reg.value == L.WithLane(old(reg.value), index, ToFloat(s))
    {
      if index == 0 {
        reg.value := AssignX(reg.value, s);
      } else if index == 1 {
        reg.value := AssignY(reg.value, s);
      } else if index == 2 {
        reg.value := AssignZ(reg.value, s);
      } else {
        reg.value := AssignW(reg.value, s);
      }
    }
  }

  /** Assigning through a proxy, then reading it back, gives the assigned value. */
  method AssignThenRead(v: L.Vec4, index: nat, f: real) returns (before: L.Vec4, after: L.Vec4, read: real)
    requires index < 4
    ensures after == L.WithLane(before, index, f) && before == v
    ensures read == f
  {
    var reg := new Register(v);
    var proxy := new VectorScalar(reg, index);
    before := reg.value;
    proxy.Assign(ScalarOf(f));
    after := reg.value;
    read := ToFloat(proxy.Get());
  }

  // ---------------------------------------------------------------------
  // Vector.

  /** The float constructor: `set_ps(W, Z, Y, X)` puts X in lane 0. */
  function VectorOf(x: real, y: real, z: real, w: real): (r: L.Vec4)
    ensures L.Lane(r, 0) == x && L.Lane(r, 1) == y && L.Lane(r, 2) == z && L.Lane(r, 3) == w
  {
    L.Vec4(x, y, z, w)
  }

  /** `==`: the movemask of `cmpeq` has all four bits set. */
  function VecEq(a: L.Vec4, b: L.Vec4): (r: bool)
    ensures r <==> L.Equal(a, b)
  {
    S.CmpEqMask(a, b) == 0xf
  }

  /** `!=`: the movemask of `cmpneq` has some bit set; always the negation of `==`. */
  function VecNotEq(a: L.Vec4, b: L.Vec4): (r: bool)
    ensures r <==> L.NotEqual(a, b)
    ensures r <==> !VecEq(a, b)
  {
    S.CmpNeqMask(a, b) != 0
  }

  /** `v * s` with a Scalar: a lane-wise product with the broadcast register. */
  function MulScalar(v: L.Vec4, s: L.Vec4): (r: L.Vec4)
    requires S.IsBroadcast(s)
    ensures r == L.Scale(v, ToFloat(s))
  {
    L.Hadamard(v, s)
  }

  /** `s * v` is defined as `v * s`. */
  function ScalarMul(s: L.Vec4, v: L.Vec4): (r: L.Vec4)
    requires S.IsBroadcast(s)
    ensures r == L.ScaleLeft(ToFloat(s), v)
  {
    MulScalar(v, s)
  }

  /** `v / s`: a lane-wise quotient by the broadcast register. */
  function DivScalar(v: L.Vec4, s: L.Vec4): (r: L.Vec4)
    requires S.IsBroadcast(s)
    ensures r == L.Div(v, ToFloat(s))
  {
    S.DivPs(v, s)
  }

  /** Unary minus: `0 - v`. */
  function VecNeg(v: L.Vec4): (r: L.Vec4)
    ensures r == L.Neg(v)
  {
    L.Sub(S.SetZero, v)
  }

  /**
   * `_vec_dp_ps`: the dot product broadcast to every lane, by `dpps` with
   * SSE4.1, by two horizontal adds with SSE3, and by two shuffle-and-add
   * rounds otherwise.
   */
  function VecDp(bits: bv32, a: L.Vec4, b: L.Vec4): (r: L.Vec4)
    requires Buildable(bits)
    ensures r == S.Set1(L.Dot(a, b))
  {
    if F.HasFeature(bits, F.F_SSE4_1) then
      S.Dp(a, b, 0xff)
    else if F.HasFeature(bits, F.F_SSE3) then
      var r1 := L.Hadamard(a, b);
      var r2 := S.HAdd(r1, r1);
      S.HAdd(r2, r2)
    else
      var r1 := L.Hadamard(a, b);
      var r2 := S.Shuffle(r1, r1, Shufps(2, 1, 0, 3));
      var r3 := L.Add(r1, r2);
      var r4 := S.Shuffle(r3, r3, Shufps(1, 0, 3, 2));
      L.Add(r3, r4)
  }

  /** `a * b` of two Vectors: the dot product as a Scalar. */
  function VecDot(bits: bv32, a: L.Vec4, b: L.Vec4): (r: L.Vec4)
    requires Buildable(bits)
    ensures ScalarCheck(r) && ToFloat(r) == L.Dot(a, b)
  {
    VecDp(bits, a, b)
  }

  function LengthSqr(bits: bv32, v: L.Vec4): (r: L.Vec4)
    requires Buildable(bits)
    ensures ScalarCheck(r) && ToFloat(r) == L.LengthSqr(v)
  {
    VecDp(bits, v, v)
  }

  /** `Length`: `sqrtps` of the broadcast squared length. */
  function Length(bits: bv32, sqrt: real -> real, v: L.Vec4): (r: L.Vec4)
    requires Buildable(bits)
    ensures ScalarCheck(r) && ToFloat(r) == L.Length(v, sqrt)
  {
    S.SqrtPs(sqrt, VecDp(bits, v, v))
  }

  /** An approximation-free reciprocal square root on the positive reals. */
  ghost predicate IsRsqrt(rsqrt: real -> real)
  {
    forall t: real :: 0.0 < t ==> 0.0 < rsqrt(t) && rsqrt(t) * rsqrt(t) * t == 1.0
  }

  /** `LengthFast`: the squared length times its reciprocal square root. */
  function LengthFast(bits: bv32, rsqrt: real -> real, v: L.Vec4): (r: L.Vec4)
    requires Buildable(bits)
    ensures ScalarCheck(r)
    ensures ToFloat(r) == L.LengthSqr(v) * rsqrt(L.LengthSqr(v))
  {
    var lsqr := VecDp(bits, v, v);
    var q := L.LengthSqr(v);
    assert lsqr == S.Set1(q);
    L.Hadamard(lsqr, S.RsqrtPs(rsqrt, lsqr))
  }

  /** With an exact reciprocal square root, `LengthFast` is a square root of the squared length. */
  lemma LengthFastIsRoot(bits: bv32, rsqrt: real -> real, v: L.Vec4)
    requires Buildable(bits) && IsRsqrt(rsqrt) && L.LengthSqr(v) > 0.0
    ensures ToFloat(LengthFast(bits, rsqrt, v)) > 0.0
    ensures ToFloat(LengthFast(bits, rsqrt, v)) * ToFloat(LengthFast(bits, rsqrt, v)) == L.LengthSqr(v)
  {
    var q := L.LengthSqr(v);
    RootFromReciprocal(q, rsqrt(q));
  }

  /** `q * k` is the positive root of `q` when `k` is the reciprocal root. */
  lemma RootFromReciprocal(q: real, k: real)
    requires q > 0.0 && k > 0.0 && k * k * q == 1.0
    ensures q * k > 0.0 && (q * k) * (q * k) == q
  {
    assert (q * k) * (q * k) == q * (k * k * q);
  }

  /** `Normalize`: the vector divided lane-wise by the broadcast length. */
  function Normalize(bits: bv32, sqrt: real -> real, v: L.Vec4): (r: L.Vec4)
    requires Buildable(bits)
    ensures r == L.Normalize(v, sqrt)
  {
    S.DivPs(v, S.SqrtPs(sqrt, VecDp(bits, v, v)))
  }

  /** `NormalizeFast`: the vector times the reciprocal square root of its squared length. */
  function NormalizeFast(bits: bv32, rsqrt: real -> real, v: L.Vec4): (r: L.Vec4)
    requires Buildable(bits)
    ensures r == L.Scale(v, rsqrt(L.LengthSqr(v)))
  {
    L.Hadamard(v, S.RsqrtPs(rsqrt, VecDp(bits, v, v)))
  }

  /** With an exact reciprocal square root, `NormalizeFast` gives a unit vector. */
  lemma NormalizeFastIsUnit(bits: bv32, rsqrt: real -> real, v: L.Vec4)
    requires Buildable(bits) && IsRsqrt(rsqrt) && L.LengthSqr(v) > 0.0
    ensures L.LengthSqr(NormalizeFast(bits, rsqrt, v)) == 1.0
  {
    var q := L.LengthSqr(v);
    var k := rsqrt(q);
    assert NormalizeFast(bits, rsqrt, v) == L.Scale(v, k);
    L.ScaledLengthSqr(v, k);
    assert k * k * q == 1.0;
  }

  /** `x * (d / l) == (d * x) / l` for a non-zero `l`. */
  lemma QuotScale(d: real, l: real, x: real)
    requires l != 0.0
    ensures x * L.Quot(d, l) == L.Quot(d * x, l)
  {
    assert (x * (d / l)) * l == x * d;
    assert ((d * x) / l) * l == d * x;
    L.Cancel(x * (d / l), (d * x) / l, l);
  }

  /**
   * `operator%`: the cross product from two shuffles of each operand. The
   * w lanes cancel, so the result is the cross product of the operands' xyz
   * parts whatever their w lanes hold.
   */
  function Cross(a: L.Vec4, b: L.Vec4): (r: L.Vec4)
    ensures r == L.Cross(a.(w := 0.0), b.(w := 0.0))
  {
    var shuf1 := S.Shuffle(a, a, Shufps(3, 1, 0, 2));
    var shuf2 := S.Shuffle(a, a, Shufps(3, 0, 2, 1));
    var prod1 := L.Hadamard(shuf1, b);
    var prod2 := L.Hadamard(shuf2, b);
    var shuf3 := S.Shuffle(prod1, prod1, Shufps(3, 1, 0, 2));
    var shuf4 := S.Shuffle(prod2, prod2, Shufps(3, 0, 2, 1));
    L.Sub(shuf3, shuf4)
  }

  /** `Project(a)`: the vector times the broadcast quotient `(this * a) / LengthSqr()`. */
  function Project(bits: bv32, t: L.Vec4, a: L.Vec4): (r: L.Vec4)
    requires Buildable(bits)
    ensures L.LengthSqr(t) != 0.0 ==> r == L.Project(t, a)
  {
    var lsqr := VecDp(bits, t, t);
    var dota := VecDp(bits, t, a);
    var k := L.Quot(L.Dot(t, a), L.LengthSqr(t));
    assert S.DivPs(dota, lsqr) == S.Set1(k);
    HadamardBroadcast(t, k);
    ProjectAsScale(t, a);
    L.Hadamard(t, S.DivPs(dota, lsqr))
  }

  /** A lane-wise product with a broadcast register scales by its value. */
  lemma HadamardBroadcast(t: L.Vec4, k: real)
    ensures L.Hadamard(t, S.Set1(k)) == L.Scale(t, k)
  {
  }

  /** For a non-zero squared length, the projection is `t` scaled by `(t * a) / |t|^2`. */
  lemma ProjectAsScale(t: L.Vec4, a: L.Vec4)
    ensures L.LengthSqr(t) != 0.0 ==> L.Project(t, a) == L.Scale(t, L.Quot(L.Dot(t, a), L.LengthSqr(t)))
  {
    var d, q := L.Dot(t, a), L.LengthSqr(t);
    if q != 0.0 {
      assert L.Quot(d, q) == d / q;
    }
  }

  /** `Reject(a)`: `a` minus its projection. */
  function Reject(bits: bv32, t: L.Vec4, a: L.Vec4): (r: L.Vec4)
    requires Buildable(bits)
    ensures L.LengthSqr(t) != 0.0 ==> r == L.Reject(t, a)
  {
    L.Sub(a, Project(bits, t, a))
  }

  /**
   * `Reflect(a)`: `proj * -2 + a` by one fused multiply-add. The header's
   * other branch does not compile, so a build needs FMA to use it.
   */
  function Reflect(bits: bv32, t: L.Vec4, a: L.Vec4): (r: L.Vec4)
    requires Buildable(bits) && F.HasFeature(bits, F.F_FMA)
    ensures L.LengthSqr(t) != 0.0 ==> r == L.Reflect(t, a)
  {
    var proj := Project(bits, t, a);
    S.FmAdd(proj, S.Set1(-2.0), a)
  }

  /**
   * As written, the branch without FMA passes two arguments to the
   * one-argument `_mm_set_ps1`, so a build for a host with SSE and no FMA
   * has no `Reflect`: such a host exists among the buildable ones.
   */
  lemma ReflectMissingWithoutFma()
    ensures Buildable(F.F_SSE) && !F.HasFeature(F.F_SSE, F.F_FMA)
  {
  }

  /**
   * The branch without FMA as evidently intended: the projection times the
   * broadcast 2 by `_mm_mul_ps`, subtracted from `a` by `_mm_sub_ps`.
   */
  function ReflectWithoutFma(bits: bv32, t: L.Vec4, a: L.Vec4): (r: L.Vec4)
    requires Buildable(bits)
    ensures L.LengthSqr(t) != 0.0 ==> r == L.Reflect(t, a)
  {
    var proj := Project(bits, t, a);
    assert L.Hadamard(proj, S.Set1(2.0)) == L.ScaleLeft(2.0, proj);
    L.Sub(a, L.Hadamard(proj, S.Set1(2.0)))
  }

  /**
   * `Reflect(a)` with the branch the host selects: the fused one with FMA,
   * the corrected one without.
   */
  function ReflectOnHost(bits: bv32, t: L.Vec4, a: L.Vec4): (r: L.Vec4)
    requires Buildable(bits)
    ensures L.LengthSqr(t) != 0.0 ==> r == L.Reflect(t, a)
  {
    if F.HasFeature(bits, F.F_FMA) then Reflect(bits, t, a) else ReflectWithoutFma(bits, t, a)
  }

  /** On a host with FMA the two branches give the same reflection, for every direction. */
  lemma ReflectBranchesAgree(bits: bv32, t: L.Vec4, a: L.Vec4)
    requires Buildable(bits) && F.HasFeature(bits, F.F_FMA)
    ensures Reflect(bits, t, a) == ReflectWithoutFma(bits, t, a)
  {
    var proj := Project(bits, t, a);
    assert S.FmAdd(proj, S.Set1(-2.0), a) == L.Sub(a, L.Hadamard(proj, S.Set1(2.0)));
  }

  // ---------------------------------------------------------------------
  // Matrix.

  /** `==`: every column compares equal. */
  function MatEq(a: L.Mat4, b: L.Mat4): (r: bool)
    ensures r <==> a == b
  {
    VecEq(a.x, b.x) && VecEq(a.y, b.y) && VecEq(a.z, b.z) && VecEq(a.w, b.w)
  }

  /** `!=`: some column compares unequal; the negation of `==`. */
  function MatNotEq(a: L.Mat4, b: L.Mat4): (r: bool)
    ensures r <==> !MatEq(a, b)
  {
    VecNotEq(a.x, b.x) || VecNotEq(a.y, b.y) || VecNotEq(a.z, b.z) || VecNotEq(a.w, b.w)
  }

  /** `m * s`: every column times the broadcast register. */
  function MatMulScalar(m: L.Mat4, s: L.Vec4): (r: L.Mat4)
    requires S.IsBroadcast(s)
    ensures r == L.MatScale(m, ToFloat(s))
  {
    var k := ToFloat(s);
    assert s == S.Set1(k);
    HadamardBroadcast(m.x, k);
    HadamardBroadcast(m.y, k);
    HadamardBroadcast(m.z, k);
    HadamardBroadcast(m.w, k);
    L.Mat4(L.Hadamard(m.x, s), L.Hadamard(m.y, s), L.Hadamard(m.z, s), L.Hadamard(m.w, s))
  }

  /** `s * m` is defined as `m * s`. */
  function ScalarMulMat(s: L.Vec4, m: L.Mat4): (r: L.Mat4)
    requires S.IsBroadcast(s)
    ensures r == L.MatScaleLeft(ToFloat(s), m)
  {
    MatMulScalar(m, s)
  }

  /** `m / s`: every column divided by the broadcast register. */
  function MatDivScalar(m: L.Mat4, s: L.Vec4): (r: L.Mat4)
    requires S.IsBroadcast(s)
    ensures r == L.MatDiv(m, ToFloat(s))
  {
    L.Mat4(S.DivPs(m.x, s), S.DivPs(m.y, s), S.DivPs(m.z, s), S.DivPs(m.w, s))
  }

  /**
   * `m * v`: each column times the broadcast lane of `v`, summed as
   * `(c0 + c1) + (c2 + c3)`.
   */
  function MulVec(m: L.Mat4, v: L.Vec4): (r: L.Vec4)
    ensures r == L.MulVec(m, v)
  {
    var rx := S.Shuffle(v, v, Shufps(0, 0, 0, 0));
    var ry := S.Shuffle(v, v, Shufps(1, 1, 1, 1));
    var rz := S.Shuffle(v, v, Shufps(2, 2, 2, 2));
    var rw := S.Shuffle(v, v, Shufps(3, 3, 3, 3));
    var r1 := L.Hadamard(m.x, rx);
    var r2 := L.Hadamard(m.y, ry);
    var r3 := L.Hadamard(m.z, rz);
    var r4 := L.Hadamard(m.w, rw);
    L.MulVecByColumns(m, v);
    L.Add(L.Add(r1, r2), L.Add(r3, r4))
  }

  /** `a * b`: `a` times each column of `b`. */
  function MulMat(a: L.Mat4, b: L.Mat4): (r: L.Mat4)
    ensures r == L.MulMat(a, b)
  {
    L.Mat4(MulVec(a, b.x), MulVec(a, b.y), MulVec(a, b.z), MulVec(a, b.w))
  }
}
