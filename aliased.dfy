// The aliased SSE backend (src/vector/Aliased.h): the register shares its
// storage with four named floats through a union, so scalars are plain
// floats and `operator[]` hands out a reference into the register. The
// register sequences are those of module Intrinsic; `_v_shuffle_ps<w, z, y, x>`
// is the shuffle with immediate `SHUFPS(w, z, y, x)` and `_v_dp_ps` the
// broadcast dot product `Intrinsic.VecDp`.

module Aliased {
  import L = Lanes
  import S = Sse
  import F = Features
  import I = Intrinsic
  import LI = LegacyIntrinsic

  /** A Vector: the union of the `__m128` register and the floats x, y, z, w. */
  class Vector {
    var value: L.Vec4

    /** The float constructor, `set_ps(W, Z, Y, X)`. */
    constructor(x: real, y: real, z: real, w: real)
      ensures value == L.Vec4(x, y, z, w)
    {
      value := L.Vec4(x, y, z, w);
    }

    /** The constant `operator[]`: float `index` of the union. */
    function Element(index: nat): (r: real)
      requires index < 4
      reads this
      ensures r == L.Lane(value, index)
    {
      if index == 0 then value.x else if index == 1 then value.y
      else if index == 2 then value.z else value.w
    }

    /**
     * A write through the mutable `operator[]`: the float and the register
     * are the same storage, so the register's lane changes and nothing else.
     */
    method SetElement(index: nat, s: real)
      requires index < 4
      modifies this
      ensures value == L.WithLane(old(value), index, s)
    {
      if index == 0 {
        value := value.(x := s);
      } else if index == 1 {
        value := value.(y := s);
      } else if index == 2 {
        value := value.(z := s);
      } else {
        value := value.(w := s);
      }
    }
  }

  /** A write followed by a read of the same element gives the written value; the other elements keep theirs. */
  method WriteThenRead(v: Vector, index: nat, other: nat, s: real) returns (read: real, kept: bool)
    requires index < 4 && other < 4 && index != other
    modifies v
    ensures read == s
    ensures kept
  {
    var before := v.Element(other);
    v.SetElement(index, s);
    read := v.Element(index);
    kept := v.Element(other) == before;
  }

  /** `v / s`: a lane-wise quotient by the broadcast float. */
  function DivScalar(v: L.Vec4, s: real): (r: L.Vec4)
    ensures r == L.Div(v, s)
  {
    S.DivPs(v, S.Set1(s))
  }

  /** `Length`: lane 0 of the root of the broadcast dot product. */
  function Length(bits: bv32, sqrt: real -> real, v: L.Vec4): (r: real)
    requires I.Buildable(bits)
    ensures r == L.Length(v, sqrt)
  {
    S.Cvtss(S.SqrtPs(sqrt, I.VecDp(bits, v, v)))
  }

  /** `LengthFast`: lane 0 of the squared length times its approximate reciprocal root. */
  function LengthFast(bits: bv32, rsqrt: real -> real, v: L.Vec4): (r: real)
    requires I.Buildable(bits)
    ensures r == I.ToFloat(I.LengthFast(bits, rsqrt, v))
  {
    var lsqr := I.VecDp(bits, v, v);
    S.Cvtss(L.Hadamard(lsqr, S.RsqrtPs(rsqrt, lsqr)))
  }

  /** `LengthSqr` and the dot product `a * b`: lane 0 of the broadcast dot product. */
  function Dot(bits: bv32, a: L.Vec4, b: L.Vec4): (r: real)
    requires I.Buildable(bits)
    ensures r == L.Dot(a, b)
  {
    S.Cvtss(I.VecDp(bits, a, b))
  }

  /**
   * `Reflect(a)`: with FMA, `proj * -2 + a` in one instruction; without it,
   * `a - 2 * proj`. Both give the reflection.
   */
  function Reflect(bits: bv32, t: L.Vec4, a: L.Vec4): (r: L.Vec4)
    requires I.Buildable(bits)
    ensures L.LengthSqr(t) != 0.0 ==> r == L.Reflect(t, a)
  {
    var proj := I.Project(bits, t, a);
    if F.HasFeature(bits, F.F_FMA) then
      S.FmAdd(proj, S.Set1(-2.0), a)
    else
      var r1 := L.Hadamard(S.Set1(2.0), proj);
      L.Sub(a, r1)
  }

  /** `m * s`: every column times the broadcast float. */
  function MatMulScalar(m: L.Mat4, s: real): (r: L.Mat4)
    ensures r == L.MatScale(m, s)
  {
    L.Mat4(LI.MulScalar(m.x, s), LI.MulScalar(m.y, s), LI.MulScalar(m.z, s), LI.MulScalar(m.w, s))
  }

  /** `m / s`: every column divided by the broadcast float. */
  function MatDivScalar(m: L.Mat4, s: real): (r: L.Mat4)
    ensures r == L.MatDiv(m, s)
  {
    L.Mat4(DivScalar(m.x, s), DivScalar(m.y, s), DivScalar(m.z, s), DivScalar(m.w, s))
  }

  /**
   * `Transpose`: unpack the low and high halves of column pairs, then
   * recombine halves with `movelh` and `movehl`.
   */
  function Transpose(m: L.Mat4): (r: L.Mat4)
    ensures r == L.Transpose(m)
  {
    var r0 := S.UnpackLo(m.x, m.y);
    var r2 := S.UnpackLo(m.z, m.w);
    var r1 := S.UnpackHi(m.x, m.y);
    var r3 := S.UnpackHi(m.z, m.w);
    L.Mat4(S.MoveLH(r0, r2), S.MoveHL(r2, r0), S.MoveLH(r1, r3), S.MoveHL(r3, r1))
  }

  /** The register transpose swaps rows and columns and undoes itself. */
  lemma TransposeSwapsEntries(m: L.Mat4)
    ensures forall i, j :: 0 <= i < 4 && 0 <= j < 4 ==> L.Entry(Transpose(m), i, j) == L.Entry(m, j, i)
    ensures Transpose(Transpose(m)) == m
  {
    L.TransposeInvolution(m);
  }
}
