// The SSE backend as it appears under src/math/Intrinsic.h. Its Scalar,
// Vector and Matrix operations are those of src/vector/Intrinsic.h (module
// Intrinsic); this module holds the two places where the header differs:
// the debug check of the Scalar register constructor and the lane writes,
// which dispatch to `Delegate<n>` specialisations.

module MathIntrinsic {
  import L = Lanes
  import S = Sse
  import I = Intrinsic

  /**
   * The debug check: four times each lane must equal the horizontal sum of
   * all four lanes (two `hadd`s), which holds exactly when the lanes agree.
   */
  function ScalarCheck(v: L.Vec4): (ok: bool)
    ensures ok <==> S.IsBroadcast(v)
    ensures ok <==> I.ScalarCheck(v)
  {
    var r1 := L.Hadamard(v, S.Set1(4.0));
    var r2 := S.HAdd(v, v);
    var r3 := S.HAdd(r2, r2);
    S.CmpEqMask(r1, r3) == 0xf
  }

  /** `Delegate<n>::op`: lane `n` of `s` written into lane `n` of `v`. */
  function Delegate(n: nat, v: L.Vec4, s: L.Vec4): (r: L.Vec4)
    requires n < 4
    ensures r == L.WithLane(v, n, L.Lane(s, n))
  {
    if n == 0 then I.AssignX(v, s)
    else if n == 1 then I.AssignY(v, s)
    else if n == 2 then I.AssignZ(v, s)
    else I.AssignW(v, s)
  }

  /** `VectorScalar::operator=`: a Scalar written into the referenced lane. */
  method Assign(reg: I.Register, index: nat, s: L.Vec4)
    requires index < 4 && S.IsBroadcast(s)
    modifies reg
    ensures reg.value == L.WithLane(old(reg.value), index, I.ToFloat(s))
  {
    reg.value := Delegate(index, reg.value, s);
  }
}
