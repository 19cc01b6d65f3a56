// The SSE instructions the intrinsic backends are built from, as Intel's
// instruction reference defines them on the four 32-bit lanes of an __m128
// register. A register is a Lanes.Vec4 with lane 0 (bits 31:0) in `x` and
// lane 3 (bits 127:96) in `w`.

module Sse {
  import opened Lanes

  /** Lane selector `k` (0..3) of a shuffle immediate: bits 2k+1..2k. */
  function Selector(imm: bv8, k: nat): (r: nat)
    requires k < 4
    ensures r < 4
  {
    ((imm >> (2 * k)) & 3) as nat
  }

  /** The immediate whose lane selectors are s0 (lane 0) ... s3 (lane 3). */
  function Pack(s0: nat, s1: nat, s2: nat, s3: nat): (imm: bv8)
    requires s0 < 4 && s1 < 4 && s2 < 4 && s3 < 4
    ensures Selector(imm, 0) == s0 && Selector(imm, 1) == s1
    ensures Selector(imm, 2) == s2 && Selector(imm, 3) == s3
  {
    (s0 as bv8) | ((s1 as bv8) << 2) | ((s2 as bv8) << 4) | ((s3 as bv8) << 6)
  }

  /** Every immediate is the packing of its own four selectors. */
  lemma PackSelectors(imm: bv8)
    ensures Pack(Selector(imm, 0), Selector(imm, 1), Selector(imm, 2), Selector(imm, 3)) == imm
  {
    SelectorBits(imm, 0);
    SelectorBits(imm, 1);
    SelectorBits(imm, 2);
    SelectorBits(imm, 3);
  }

  /** A selector read back as a byte is the two bits it was taken from. */
  lemma SelectorBits(imm: bv8, k: nat)
    requires k < 4
    ensures Selector(imm, k) as bv8 == (imm >> (2 * k)) & 3
  {
  }

  /** `_mm_shuffle_ps(a, b, imm)`: lanes 0 and 1 from `a`, lanes 2 and 3 from `b`. */
  function Shuffle(a: Vec4, b: Vec4, imm: bv8): Vec4
  {
    Vec4(Lane(a, Selector(imm, 0)), Lane(a, Selector(imm, 1)),
         Lane(b, Selector(imm, 2)), Lane(b, Selector(imm, 3)))
  }

  /** `_mm_unpacklo_ps`: interleave the low halves. */
  function UnpackLo(a: Vec4, b: Vec4): Vec4 { Vec4(a.x, b.x, a.y, b.y) }

  /** `_mm_unpackhi_ps`: interleave the high halves. */
  function UnpackHi(a: Vec4, b: Vec4): Vec4 { Vec4(a.z, b.z, a.w, b.w) }

  /** `_mm_movelh_ps`: low half of `a`, then low half of `b`. */
  function MoveLH(a: Vec4, b: Vec4): Vec4 { Vec4(a.x, a.y, b.x, b.y) }

  /** `_mm_movehl_ps`: high half of `b`, then high half of `a`. */
  function MoveHL(a: Vec4, b: Vec4): Vec4 { Vec4(b.z, b.w, a.z, a.w) }

  /** `_mm_hadd_ps`: pairwise sums of `a`, then of `b`. */
  function HAdd(a: Vec4, b: Vec4): Vec4 { Vec4(a.x + a.y, a.z + a.w, b.x + b.y, b.z + b.w) }

  /** `_mm_set_ps1`: the same value in every lane. */
  function Set1(s: real): (r: Vec4)
    ensures forall i :: 0 <= i < 4 ==> Lane(r, i) == s
  {
    Vec4(s, s, s, s)
  }

  /** `_mm_set_ss`: the value in lane 0, zeros above. */
  function SetSs(s: real): Vec4 { Vec4(s, 0.0, 0.0, 0.0) }

  /** `_mm_setzero_ps`. */
  const SetZero: Vec4 := Vec4(0.0, 0.0, 0.0, 0.0)

  /** A register that holds the same value in all four lanes. */
  predicate IsBroadcast(v: Vec4)
  {
    v.x == v.y && v.y == v.z && v.z == v.w
  }

  /** `_mm_div_ps`: lane-wise quotient. */
  function DivPs(a: Vec4, b: Vec4): Vec4
  {
    Vec4(Quot(a.x, b.x), Quot(a.y, b.y), Quot(a.z, b.z), Quot(a.w, b.w))
  }

  /** `_mm_sqrt_ps`: lane-wise square root. */
  function SqrtPs(sqrt: real -> real, a: Vec4): Vec4
  {
    Vec4(sqrt(a.x), sqrt(a.y), sqrt(a.z), sqrt(a.w))
  }

  /** `_mm_sqrt_ss`: square root of lane 0, upper lanes passed through. */
  function SqrtSs(sqrt: real -> real, a: Vec4): Vec4
  {
    Vec4(sqrt(a.x), a.y, a.z, a.w)
  }

  /** `_mm_rsqrt_ps`: lane-wise approximate reciprocal square root. */
  function RsqrtPs(rsqrt: real -> real, a: Vec4): Vec4
  {
    Vec4(rsqrt(a.x), rsqrt(a.y), rsqrt(a.z), rsqrt(a.w))
  }

  /** `_mm_rsqrt_ss`: approximate reciprocal square root of lane 0. */
  function RsqrtSs(rsqrt: real -> real, a: Vec4): Vec4
  {
    Vec4(rsqrt(a.x), a.y, a.z, a.w)
  }

  /** `_mm_mul_ss`: product of lane 0, upper lanes of `a` passed through. */
  function MulSs(a: Vec4, b: Vec4): Vec4
  {
    Vec4(a.x * b.x, a.y, a.z, a.w)
  }

  /** `_mm_cvtss_f32`: lane 0. */
  function Cvtss(a: Vec4): real { a.x }

  /** `_mm_fmadd_ps`: lane-wise `a * b + c`. */
  function FmAdd(a: Vec4, b: Vec4, c: Vec4): Vec4
  {
    Add(Hadamard(a, b), c)
  }

  /** SHUFPS: destination lane k takes lane `Selector(imm, k)` of `a` for k < 2, of `b` for k >= 2. */
  lemma ShuffleLanes(a: Vec4, b: Vec4, imm: bv8)
    ensures forall k :: 0 <= k < 2 ==> Lane(Shuffle(a, b, imm), k) == Lane(a, Selector(imm, k))
    ensures forall k :: 2 <= k < 4 ==> Lane(Shuffle(a, b, imm), k) == Lane(b, Selector(imm, k))
  {
  }

  /** UNPCKLPS: lanes 2k and 2k + 1 are lane k of `a` and of `b`, for the low half k < 2. */
  lemma UnpackLoLanes(a: Vec4, b: Vec4)
    ensures forall k :: 0 <= k < 2 ==> Lane(UnpackLo(a, b), 2 * k) == Lane(a, k) && Lane(UnpackLo(a, b), 2 * k + 1) == Lane(b, k)
  {
  }

  /** UNPCKHPS: lanes 2k and 2k + 1 are lane 2 + k of `a` and of `b`, for the high half. */
  lemma UnpackHiLanes(a: Vec4, b: Vec4)
    ensures forall k :: 0 <= k < 2 ==> Lane(UnpackHi(a, b), 2 * k) == Lane(a, 2 + k) && Lane(UnpackHi(a, b), 2 * k + 1) == Lane(b, 2 + k)
  {
  }

  /** MOVLHPS: the low half of `a`, then the low half of `b` in the high half. */
  lemma MoveLHLanes(a: Vec4, b: Vec4)
    ensures forall k :: 0 <= k < 2 ==> Lane(MoveLH(a, b), k) == Lane(a, k) && Lane(MoveLH(a, b), 2 + k) == Lane(b, k)
  {
  }

  /** MOVHLPS: the high half of `b` moved to the low half, the high half of `a` kept. */
  lemma MoveHLLanes(a: Vec4, b: Vec4)
    ensures forall k :: 2 <= k < 4 ==> Lane(MoveHL(a, b), k - 2) == Lane(b, k) && Lane(MoveHL(a, b), k) == Lane(a, k)
  {
  }

  /** HADDPS: lane k is the sum of the adjacent pair 2k, 2k + 1 of `a` (k < 2), then of `b`. */
  lemma HAddLanes(a: Vec4, b: Vec4)
    ensures forall k :: 0 <= k < 2 ==> Lane(HAdd(a, b), k) == Lane(a, 2 * k) + Lane(a, 2 * k + 1)
    ensures forall k :: 0 <= k < 2 ==> Lane(HAdd(a, b), 2 + k) == Lane(b, 2 * k) + Lane(b, 2 * k + 1)
  {
  }

  /** DIVPS: multiplying lane i of the quotient by a non-zero lane i of `b` gives lane i of `a`. */
  lemma DivPsLanes(a: Vec4, b: Vec4)
    ensures forall i :: 0 <= i < 4 && Lane(b, i) != 0.0 ==> Lane(DivPs(a, b), i) * Lane(b, i) == Lane(a, i)
  {
  }

  /** SQRTPS: with a true square root, every lane squared gives back the non-negative input lane. */
  lemma SqrtPsLanes(sqrt: real -> real, a: Vec4)
    requires IsSqrt(sqrt)
    ensures forall i :: 0 <= i < 4 && 0.0 <= Lane(a, i) ==>
              0.0 <= Lane(SqrtPs(sqrt, a), i) && Lane(SqrtPs(sqrt, a), i) * Lane(SqrtPs(sqrt, a), i) == Lane(a, i)
  {
  }

  /** RSQRTPS: every lane is the approximate reciprocal square root of that lane. */
  lemma RsqrtPsLanes(rsqrt: real -> real, a: Vec4)
    ensures forall i :: 0 <= i < 4 ==> Lane(RsqrtPs(rsqrt, a), i) == rsqrt(Lane(a, i))
  {
  }

  /** MULSS: lane 0 is the product of the lanes 0; lanes 1..3 are those of `a`. */
  lemma MulSsLanes(a: Vec4, b: Vec4)
    ensures Lane(MulSs(a, b), 0) == Lane(a, 0) * Lane(b, 0)
    ensures forall i :: 1 <= i < 4 ==> Lane(MulSs(a, b), i) == Lane(a, i)
  {
  }

  /** VFMADD: every lane is `a * b + c` on that lane. */
  lemma FmAddLanes(a: Vec4, b: Vec4, c: Vec4)
    ensures forall i :: 0 <= i < 4 ==> Lane(FmAdd(a, b, c), i) == Lane(a, i) * Lane(b, i) + Lane(c, i)
  {
  }

  /** Bit `k` of an immediate. */
  predicate Bit(imm: bv8, k: nat)
    requires k < 8
  {
    imm & (1 << k) != 0
  }

  /**
   * `_mm_dp_ps(a, b, imm)` (SSE4.1 DPPS): the high nibble selects which lane
   * products enter the sum, the low nibble which result lanes receive it.
   */
  function Dp(a: Vec4, b: Vec4, imm: bv8): (r: Vec4)
    ensures imm == 0xff ==> r == Set1(Dot(a, b))
    ensures imm == 0xf1 ==> r == Vec4(Dot(a, b), 0.0, 0.0, 0.0)
  {
    var t0 := if Bit(imm, 4) then a.x * b.x else 0.0;
    var t1 := if Bit(imm, 5) then a.y * b.y else 0.0;
    var t2 := if Bit(imm, 6) then a.z * b.z else 0.0;
    var t3 := if Bit(imm, 7) then a.w * b.w else 0.0;
    var sum := (t1 + t0) + (t3 + t2);
    Vec4(if Bit(imm, 0) then sum else 0.0, if Bit(imm, 1) then sum else 0.0,
         if Bit(imm, 2) then sum else 0.0, if Bit(imm, 3) then sum else 0.0)
  }

  /** `_mm_movemask_ps(_mm_cmpeq_ps(a, b))`: bit `i` set when lane `i` is equal. */
  function CmpEqMask(a: Vec4, b: Vec4): (m: int)
    ensures 0 <= m <= 15
    ensures m == 15 <==> a == b
  {
    (if a.x == b.x then 1 else 0) + (if a.y == b.y then 2 else 0)
    + (if a.z == b.z then 4 else 0) + (if a.w == b.w then 8 else 0)
  }

  /** `_mm_movemask_ps(_mm_cmpneq_ps(a, b))`: bit `i` set when lane `i` differs. */
  function CmpNeqMask(a: Vec4, b: Vec4): (m: int)
    ensures 0 <= m <= 15
    ensures m != 0 <==> a != b
    ensures m == 15 <==> (a.x != b.x && a.y != b.y && a.z != b.z && a.w != b.w)
  {
    (if a.x != b.x then 1 else 0) + (if a.y != b.y then 2 else 0)
    + (if a.z != b.z then 4 else 0) + (if a.w != b.w then 8 else 0)
  }

  /** The scalar comparisons `_mm_comi??_ss` look at lane 0 only. */
  predicate ComiEq(a: Vec4, b: Vec4) { a.x == b.x }
  predicate ComiNeq(a: Vec4, b: Vec4) { a.x != b.x }
  predicate ComiLt(a: Vec4, b: Vec4) { a.x < b.x }
  predicate ComiGt(a: Vec4, b: Vec4) { a.x > b.x }
  predicate ComiLe(a: Vec4, b: Vec4) { a.x <= b.x }
  predicate ComiGe(a: Vec4, b: Vec4) { a.x >= b.x }
}
