// The lane algebra every backend of the library computes: a 4-lane vector
// (x, y, z, w) and a 4x4 matrix stored as four column vectors. Lanes are
// modelled as mathematical reals. The scalar backends (src/vector/Reference.h,
// Default.h, Aligned.h) write exactly these lane expressions; the SSE backends
// are proved equal to them in their own modules.

module Lanes {

  /** A four-lane vector: lane 0 is x, lane 3 is w. */
  datatype Vec4 = Vec4(x: real, y: real, z: real, w: real)

  /** A 4x4 matrix stored as its four columns x, y, z, w. */
  datatype Mat4 = Mat4(x: Vec4, y: Vec4, z: Vec4, w: Vec4)

  const Zero: Vec4 := Vec4(0.0, 0.0, 0.0, 0.0)

  /**
   * Lane `i` of a vector: the scalar backends read `(&x)[i]`, the aliased
   * backend reads the float array of its union.
   */
  function Lane(v: Vec4, i: nat): real
    requires i < 4
  {
    if i == 0 then v.x else if i == 1 then v.y else if i == 2 then v.z else v.w
  }

  /** Writing through the mutable `operator[]`: lane `i` becomes `s`. */
  function WithLane(v: Vec4, i: nat, s: real): (r: Vec4)
    requires i < 4
    ensures Lane(r, i) == s
    ensures forall k :: 0 <= k < 4 && k != i ==> Lane(r, k) == Lane(v, k)
  {
    if i == 0 then v.(x := s) else if i == 1 then v.(y := s)
    else if i == 2 then v.(z := s) else v.(w := s)
  }

  /** Two vectors are equal exactly when all four lanes are. */
  lemma LanesDetermineVector(a: Vec4, b: Vec4)
    requires forall i :: 0 <= i < 4 ==> Lane(a, i) == Lane(b, i)
    ensures a == b
  {
    assert Lane(a, 0) == Lane(b, 0) && Lane(a, 1) == Lane(b, 1);
    assert Lane(a, 2) == Lane(b, 2) && Lane(a, 3) == Lane(b, 3);
  }

  /**
   * Division of two lanes. IEEE arithmetic gives an infinity or NaN for a
   * zero divisor; the model returns 0 there as a placeholder.
   */
  function Quot(a: real, b: real): (r: real)
    ensures b != 0.0 ==> r * b == a
    ensures b == 0.0 ==> r == 0.0
  {
    if b == 0.0 then 0.0 else a / b
  }

  // ---------------------------------------------------------------------
  // Vector operators.

  /** `a == b` is the conjunction of the four lane comparisons. */
  function Equal(a: Vec4, b: Vec4): (r: bool)
    ensures r <==> a == b
  {
    a.x == b.x && a.y == b.y && a.z == b.z && a.w == b.w
  }

  /** `a != b` is the disjunction of the four lane `!=`: the negation of `==`. */
  function NotEqual(a: Vec4, b: Vec4): (r: bool)
    ensures r <==> !Equal(a, b)
  {
    a.x != b.x || a.y != b.y || a.z != b.z || a.w != b.w
  }

  /** `a + b`: lane by lane. */
  function Add(a: Vec4, b: Vec4): Vec4
  {
    Vec4(a.x + b.x, a.y + b.y, a.z + b.z, a.w + b.w)
  }

  /** `a - b`: lane by lane. */
  function Sub(a: Vec4, b: Vec4): Vec4
  {
    Vec4(a.x - b.x, a.y - b.y, a.z - b.z, a.w - b.w)
  }

  /** `v * s`: every lane multiplied by the scalar. */
  function Scale(v: Vec4, s: real): Vec4
  {
    Vec4(v.x * s, v.y * s, v.z * s, v.w * s)
  }

  /** `s * v`, defined by the library as `v * s`. */
  function ScaleLeft(s: real, v: Vec4): Vec4
  {
    Scale(v, s)
  }

  /** `v / s`: every lane divided by the scalar. */
  function Div(v: Vec4, s: real): (r: Vec4)
    ensures s != 0.0 ==> Scale(r, s) == v
  {
    Vec4(Quot(v.x, s), Quot(v.y, s), Quot(v.z, s), Quot(v.w, s))
  }

  /** Unary minus. */
  function Neg(v: Vec4): (r: Vec4)
    ensures Add(v, r) == Zero
    ensures r == Scale(v, -1.0)
  {
    Vec4(-v.x, -v.y, -v.z, -v.w)
  }

  /** The lane-wise (Hadamard) product. */
  function Hadamard(a: Vec4, b: Vec4): Vec4
  {
    Vec4(a.x * b.x, a.y * b.y, a.z * b.z, a.w * b.w)
  }

  /** `operator[](i)` reads `(&x)[i]`: the lanes lie in memory in the order x, y, z, w. */
  lemma LaneLayout(v: Vec4, i: nat)
    requires i < 4
    ensures Lane(v, i) == [v.x, v.y, v.z, v.w][i]
  {
  }

  /** Lane i of a sum is the sum of the lanes i. */
  lemma AddLanes(a: Vec4, b: Vec4)
    ensures forall i :: 0 <= i < 4 ==> Lane(Add(a, b), i) == Lane(a, i) + Lane(b, i)
  {
  }

  /** Lane i of a difference is the difference of the lanes i, and adding `b` back gives `a`. */
  lemma SubLanes(a: Vec4, b: Vec4)
    ensures forall i :: 0 <= i < 4 ==> Lane(Sub(a, b), i) == Lane(a, i) - Lane(b, i)
    ensures Add(Sub(a, b), b) == a
  {
  }

  /** Every lane of `v * s` is that lane times `s`; scaling by 1 changes nothing. */
  lemma ScaleLanes(v: Vec4, s: real)
    ensures forall i :: 0 <= i < 4 ==> Lane(Scale(v, s), i) == Lane(v, i) * s
    ensures Scale(v, 1.0) == v
  {
  }

  /** `s * v` is `v * s`: every lane is `s` times that lane. */
  lemma ScaleLeftLanes(s: real, v: Vec4)
    ensures ScaleLeft(s, v) == Scale(v, s)
    ensures forall i :: 0 <= i < 4 ==> Lane(ScaleLeft(s, v), i) == s * Lane(v, i)
  {
  }

  /** Lane i of the Hadamard product is the product of the lanes i, so the product is symmetric. */
  lemma HadamardLanes(a: Vec4, b: Vec4)
    ensures forall i :: 0 <= i < 4 ==> Lane(Hadamard(a, b), i) == Lane(a, i) * Lane(b, i)
    ensures Hadamard(a, b) == Hadamard(b, a)
  {
  }

  /** The four-lane dot product: the sum of the lanes of the Hadamard product. */
  function Dot(a: Vec4, b: Vec4): (r: real)
    ensures r == Lane(Hadamard(a, b), 0) + Lane(Hadamard(a, b), 1)
               + Lane(Hadamard(a, b), 2) + Lane(Hadamard(a, b), 3)
  {
    a.x * b.x + a.y * b.y + a.z * b.z + a.w * b.w
  }

  /** The dot product is symmetric. */
  lemma DotSymmetric(a: Vec4, b: Vec4)
    ensures Dot(a, b) == Dot(b, a)
  {
  }

  /** The dot product distributes over a sum in its second operand. */
  lemma DotAdd(a: Vec4, b: Vec4, c: Vec4)
    ensures Dot(a, Add(b, c)) == Dot(a, b) + Dot(a, c)
  {
  }

  /** The dot product distributes over a difference in its second operand. */
  lemma DotSub(a: Vec4, b: Vec4, c: Vec4)
    ensures Dot(a, Sub(b, c)) == Dot(a, b) - Dot(a, c)
  {
  }

  /** Scaling the second operand scales the dot product. */
  lemma DotScale(a: Vec4, b: Vec4, s: real)
    ensures Dot(a, Scale(b, s)) == Dot(a, b) * s
  {
  }

  /** The squared length: never negative, and zero for the zero vector. */
  function LengthSqr(v: Vec4): (r: real)
    ensures r == Dot(v, v)
    ensures r >= 0.0
    ensures v == Zero ==> r == 0.0
  {
    v.x * v.x + v.y * v.y + v.z * v.z + v.w * v.w
  }

  /** `a * c == b * c` with `c` non-zero gives `a == b`. */
  lemma Cancel(a: real, b: real, c: real)
    requires c != 0.0 && a * c == b * c
    ensures a == b
  {
    assert a == (a * c) / c;
    assert b == (b * c) / c;
  }

  /** A square root on the non-negative reals (`std::sqrt`, `sqrtps`). */
  ghost predicate IsSqrt(sqrt: real -> real)
  {
    forall t: real :: 0.0 <= t ==> 0.0 <= sqrt(t) && sqrt(t) * sqrt(t) == t
  }

  /** The root of one non-negative value. */
  lemma SqrtAt(sqrt: real -> real, t: real)
    requires IsSqrt(sqrt) && 0.0 <= t
    ensures 0.0 <= sqrt(t) && sqrt(t) * sqrt(t) == t
  {
  }

  /** The length, `sqrt(LengthSqr())`: the non-negative root of the squared length. */
  function Length(v: Vec4, sqrt: real -> real): (r: real)
    ensures IsSqrt(sqrt) ==> r >= 0.0 && r * r == LengthSqr(v)
  {
    sqrt(LengthSqr(v))
  }

  /** The scalar backends give `LengthFast` the same body as `Length`. */
  function LengthFast(v: Vec4, sqrt: real -> real): (r: real)
    ensures r == Length(v, sqrt)
  {
    sqrt(LengthSqr(v))
  }

  /** `v / Length()`: the direction of `v`, scaled back to `v` by its length. */
  function Normalize(v: Vec4, sqrt: real -> real): (r: Vec4)
    ensures Length(v, sqrt) != 0.0 ==> Scale(r, Length(v, sqrt)) == v
  {
    Div(v, Length(v, sqrt))
  }

  /** A vector of non-zero length normalizes to unit length. */
  lemma NormalizeIsUnit(v: Vec4, sqrt: real -> real)
    requires IsSqrt(sqrt) && LengthSqr(v) != 0.0
    ensures LengthSqr(Normalize(v, sqrt)) == 1.0
  {
    var l := Length(v, sqrt);
    var L := LengthSqr(v);
    assert l * l == L;
    RootOfNonZero(l, L);
    DivLengthSqr(v, l);
    var n := LengthSqr(Div(v, l));
    assert n * (l * l) == n * L;
    Cancel(n, 1.0, L);
  }

  /** A root of a non-zero number is non-zero. */
  lemma RootOfNonZero(l: real, q: real)
    requires l * l == q && q != 0.0
    ensures l != 0.0
  {
  }

  /** The scalar backends give `NormalizeFast` the same body as `Normalize`. */
  function NormalizeFast(v: Vec4, sqrt: real -> real): (r: Vec4)
    ensures r == Normalize(v, sqrt)
  {
    Div(v, Length(v, sqrt))
  }

  /** Dividing by a scalar divides the squared length by its square. */
  lemma DivLengthSqr(v: Vec4, s: real)
    requires s != 0.0
    ensures LengthSqr(Div(v, s)) * (s * s) == LengthSqr(v)
  {
    var d := Div(v, s);
    assert Scale(d, s) == v;
    calc {
      LengthSqr(d) * (s * s);
      (d.x * s) * (d.x * s) + (d.y * s) * (d.y * s) + (d.z * s) * (d.z * s) + (d.w * s) * (d.w * s);
      LengthSqr(v);
    }
  }

  /**
   * The three-dimensional cross product; both operands must have w == 0
   * (the scalar backends assert it) and the result has w == 0.
   */
  function Cross(a: Vec4, b: Vec4): (r: Vec4)
    requires a.w == 0.0 && b.w == 0.0
    ensures r.w == 0.0
  {
    Vec4(a.y * b.z - a.z * b.y, a.z * b.x - a.x * b.z, a.x * b.y - a.y * b.x, 0.0)
  }

  /** The cross product is orthogonal to both operands. */
  lemma CrossOrthogonal(a: Vec4, b: Vec4)
    requires a.w == 0.0 && b.w == 0.0
    ensures Dot(Cross(a, b), a) == 0.0 && Dot(Cross(a, b), b) == 0.0
  {
  }

  /** Swapping the operands of the cross product negates it. */
  lemma CrossAnticommutative(a: Vec4, b: Vec4)
    requires a.w == 0.0 && b.w == 0.0
    ensures Cross(b, a) == Neg(Cross(a, b))
    ensures Cross(a, a) == Zero
  {
  }

  /** `Project(a)`: `(this * a) * this / LengthSqr()`, the part of `a` along `this`. */
  function Project(t: Vec4, a: Vec4): (r: Vec4)
    ensures LengthSqr(t) != 0.0 ==> r == Scale(t, Dot(t, a) / LengthSqr(t))
  {
    if LengthSqr(t) != 0.0 then
      DivOfScale(t, Dot(t, a), LengthSqr(t));
      Div(ScaleLeft(Dot(t, a), t), LengthSqr(t))
    else
      Div(ScaleLeft(Dot(t, a), t), LengthSqr(t))
  }

  /** Dividing a scaled vector by `d` scales it by the quotient. */
  lemma DivOfScale(v: Vec4, s: real, d: real)
    requires d != 0.0
    ensures Div(Scale(v, s), d) == Scale(v, s / d)
  {
    QuotOfProduct(v.x, s, d);
    QuotOfProduct(v.y, s, d);
    QuotOfProduct(v.z, s, d);
    QuotOfProduct(v.w, s, d);
  }

  lemma QuotOfProduct(p: real, s: real, d: real)
    requires d != 0.0
    ensures Quot(p * s, d) == p * (s / d)
  {
  }

  /** `Reject(a)`: `a - Project(a)`, the part of `a` orthogonal to `this`. */
  function Reject(t: Vec4, a: Vec4): (r: Vec4)
    ensures Add(r, Project(t, a)) == a
  {
    Sub(a, Project(t, a))
  }

  /** The rejection is orthogonal to the projecting vector. */
  lemma RejectOrthogonal(t: Vec4, a: Vec4)
    requires LengthSqr(t) != 0.0
    ensures Dot(t, Reject(t, a)) == 0.0
  {
    var k := Dot(t, a) / LengthSqr(t);
    var p := Project(t, a);
    QuotientTimes(Dot(t, a), LengthSqr(t));
    DotSub(t, a, p);
    DotScale(t, t, k);
  }

  /** `(x / d) * d == x` for a non-zero `d`. */
  lemma QuotientTimes(x: real, d: real)
    requires d != 0.0
    ensures (x / d) * d == x
  {
  }

  /** `Reflect(a)`: `a - 2 * Project(a)`, the mirror image of `a` in the plane orthogonal to `this`. */
  function Reflect(t: Vec4, a: Vec4): (r: Vec4)
    ensures Add(r, ScaleLeft(2.0, Project(t, a))) == a
  {
    Sub(a, ScaleLeft(2.0, Project(t, a)))
  }

  /** Reflecting across a plane negates the component along its normal. */
  lemma ReflectNegatesNormalPart(t: Vec4, a: Vec4)
    requires LengthSqr(t) != 0.0
    ensures Dot(t, Reflect(t, a)) == -Dot(t, a)
    ensures Reflect(t, a) == Sub(a, Scale(t, 2.0 * (Dot(t, a) / LengthSqr(t))))
  {
    var k := Dot(t, a) / LengthSqr(t);
    QuotientTimes(Dot(t, a), LengthSqr(t));
    ScaleTwice(t, k, 2.0);
    DotSub(t, a, Scale(t, 2.0 * k));
    DotScale(t, t, 2.0 * k);
  }

  /** Scaling by `s` and then by `u` scales by `u * s`. */
  lemma ScaleTwice(v: Vec4, s: real, u: real)
    ensures Scale(Scale(v, s), u) == Scale(v, u * s)
  {
  }

  /** Reflection undoes itself. */
  lemma ReflectInvolution(t: Vec4, a: Vec4)
    requires LengthSqr(t) != 0.0
    ensures Reflect(t, Reflect(t, a)) == a
  {
    var L := LengthSqr(t);
    var r := Reflect(t, a);
    ReflectNegatesNormalPart(t, a);
    ReflectNegatesNormalPart(t, r);
    var k := Dot(t, a) / L;
    var k2 := Dot(t, r) / L;
    QuotNeg(Dot(t, a), L);
    assert k2 == -k;
    assert r == Sub(a, Scale(t, 2.0 * k));
    assert Reflect(t, r) == Sub(r, Scale(t, -2.0 * k));
  }

  lemma QuotNeg(p: real, q: real)
    requires q != 0.0
    ensures (-p) / q == -(p / q)
  {
  }

  /** Reflection keeps the squared length. */
  lemma ReflectIsometric(t: Vec4, a: Vec4)
    requires LengthSqr(t) != 0.0
    ensures LengthSqr(Reflect(t, a)) == LengthSqr(a)
  {
    var k := Dot(t, a) / LengthSqr(t);
    assert k * LengthSqr(t) == Dot(t, a) by {
      QuotientTimes(Dot(t, a), LengthSqr(t));
    }
    IsometryArithmetic(Dot(t, a), LengthSqr(t), k);
    ReflectNegatesNormalPart(t, a);
    SubLengthSqr(a, Scale(t, 2.0 * k));
    DotSymmetric(Scale(t, 2.0 * k), a);
    DotScale(a, t, 2.0 * k);
    DotSymmetric(a, t);
    ScaledLengthSqr(t, 2.0 * k);
  }

  /** `|a - u|^2 == |a|^2 - 2 u.a + |u|^2`. */
  lemma SubLengthSqr(a: Vec4, u: Vec4)
    ensures LengthSqr(Sub(a, u)) == LengthSqr(a) - 2.0 * Dot(u, a) + LengthSqr(u)
  {
    var d := Sub(a, u);
    DotSub(d, a, u);
    DotSymmetric(d, a);
    DotSymmetric(d, u);
    DotSub(a, a, u);
    DotSub(u, a, u);
    DotSymmetric(a, u);
  }

  /** Scaling by `k` scales the squared length by `k * k`. */
  lemma ScaledLengthSqr(v: Vec4, k: real)
    ensures LengthSqr(Scale(v, k)) == k * k * LengthSqr(v)
  {
  }

  /** With `k L == d`, the terms `2 (2k) d` and `(2k)^2 L` cancel. */
  lemma IsometryArithmetic(d: real, l: real, k: real)
    requires k * l == d
    ensures -2.0 * (d * (2.0 * k)) + (2.0 * k) * (2.0 * k) * l == 0.0
  {
    assert (2.0 * k) * (2.0 * k) * l == 4.0 * k * (k * l);
  }

  // ---------------------------------------------------------------------
  // Matrices.

  /** Column `j` (the mutable and constant `operator[]` of the matrix). */
  function Column(m: Mat4, j: nat): Vec4
    requires j < 4
  {
    if j == 0 then m.x else if j == 1 then m.y else if j == 2 then m.z else m.w
  }

  /** The entry in row `i`, column `j`: lane `i` of column `j`. */
  function Entry(m: Mat4, i: nat, j: nat): real
    requires i < 4 && j < 4
  {
    Lane(Column(m, j), i)
  }

  /** Two matrices are equal exactly when all sixteen entries are. */
  lemma EntriesDetermineMatrix(a: Mat4, b: Mat4)
    requires forall i, j :: 0 <= i < 4 && 0 <= j < 4 ==> Entry(a, i, j) == Entry(b, i, j)
    ensures a == b
  {
    forall j | 0 <= j < 4 ensures Column(a, j) == Column(b, j) {
      forall i | 0 <= i < 4 ensures Lane(Column(a, j), i) == Lane(Column(b, j), i) {
        assert Entry(a, i, j) == Entry(b, i, j);
      }
      LanesDetermineVector(Column(a, j), Column(b, j));
    }
    assert Column(a, 0) == Column(b, 0) && Column(a, 1) == Column(b, 1);
    assert Column(a, 2) == Column(b, 2) && Column(a, 3) == Column(b, 3);
  }

  /** The column-vector constructor. */
  function FromColumns(x: Vec4, y: Vec4, z: Vec4, w: Vec4): (r: Mat4)
    ensures Column(r, 0) == x && Column(r, 1) == y && Column(r, 2) == z && Column(r, 3) == w
  {
    Mat4(x, y, z, w)
  }

  /**
   * The sixteen-float constructor takes its arguments row by row
   * (`m11, m12, ..., m44`) and stores them by column, so `e[4 * i + j]`
   * lands in row `i`, column `j`.
   */
  function FromRows(e: seq<real>): (r: Mat4)
    requires |e| == 16
    ensures forall i, j :: 0 <= i < 4 && 0 <= j < 4 ==> Entry(r, i, j) == e[4 * i + j]
  {
    Mat4(Vec4(e[0], e[4], e[8], e[12]),
         Vec4(e[1], e[5], e[9], e[13]),
         Vec4(e[2], e[6], e[10], e[14]),
         Vec4(e[3], e[7], e[11], e[15]))
  }

  function MatEqual(a: Mat4, b: Mat4): (r: bool)
    ensures r <==> a == b
  {
    Equal(a.x, b.x) && Equal(a.y, b.y) && Equal(a.z, b.z) && Equal(a.w, b.w)
  }

  function MatNotEqual(a: Mat4, b: Mat4): (r: bool)
    ensures r <==> a != b
  {
    NotEqual(a.x, b.x) || NotEqual(a.y, b.y) || NotEqual(a.z, b.z) || NotEqual(a.w, b.w)
  }

  function MatAdd(a: Mat4, b: Mat4): (r: Mat4)
    ensures forall j :: 0 <= j < 4 ==> Column(r, j) == Add(Column(a, j), Column(b, j))
  {
    Mat4(Add(a.x, b.x), Add(a.y, b.y), Add(a.z, b.z), Add(a.w, b.w))
  }

  function MatSub(a: Mat4, b: Mat4): (r: Mat4)
    ensures forall j :: 0 <= j < 4 ==> Column(r, j) == Sub(Column(a, j), Column(b, j))
    ensures MatAdd(r, b) == a
  {
    Mat4(Sub(a.x, b.x), Sub(a.y, b.y), Sub(a.z, b.z), Sub(a.w, b.w))
  }

  function MatScale(m: Mat4, s: real): (r: Mat4)
    ensures forall j :: 0 <= j < 4 ==> Column(r, j) == Scale(Column(m, j), s)
  {
    Mat4(Scale(m.x, s), Scale(m.y, s), Scale(m.z, s), Scale(m.w, s))
  }

  /** `s * m`, defined by the library as `m * s`. */
  function MatScaleLeft(s: real, m: Mat4): (r: Mat4)
    ensures forall j :: 0 <= j < 4 ==> Column(r, j) == ScaleLeft(s, Column(m, j))
  {
    MatScale(m, s)
  }

  function MatDiv(m: Mat4, s: real): (r: Mat4)
    ensures s != 0.0 ==> MatScale(r, s) == m
  {
    Mat4(Div(m.x, s), Div(m.y, s), Div(m.z, s), Div(m.w, s))
  }

  function MatHadamard(a: Mat4, b: Mat4): (r: Mat4)
    ensures forall j :: 0 <= j < 4 ==> Column(r, j) == Hadamard(Column(a, j), Column(b, j))
  {
    Mat4(Hadamard(a.x, b.x), Hadamard(a.y, b.y), Hadamard(a.z, b.z), Hadamard(a.w, b.w))
  }

  /** Row `i` of `m` dotted with `v`. */
  function RowDot(m: Mat4, i: nat, v: Vec4): real
    requires i < 4
  {
    Lane(m.x, i) * v.x + Lane(m.y, i) * v.y + Lane(m.z, i) * v.z + Lane(m.w, i) * v.w
  }

  /** The matrix-vector product: lane `i` is row `i` dotted with `v`. */
  function MulVec(m: Mat4, v: Vec4): Vec4
  {
    Vec4(RowDot(m, 0, v), RowDot(m, 1, v), RowDot(m, 2, v), RowDot(m, 3, v))
  }

  /** Lane `ii` of `M * x` is the sum over `kk` of `M[kk][ii] * x[kk]`, the accumulation of the loop. */
  lemma MulVecLanes(m: Mat4, v: Vec4)
    ensures forall i :: 0 <= i < 4 ==>
              Lane(MulVec(m, v), i) == Lane(m.x, i) * Lane(v, 0) + Lane(m.y, i) * Lane(v, 1)
                                       + Lane(m.z, i) * Lane(v, 2) + Lane(m.w, i) * Lane(v, 3)
  {
  }

  /** The product is the sum of the columns weighted by the lanes of `v`. */
  lemma MulVecByColumns(m: Mat4, v: Vec4)
    ensures MulVec(m, v) == Add(Add(Scale(m.x, v.x), Scale(m.y, v.y)), Add(Scale(m.z, v.z), Scale(m.w, v.w)))
  {
    var r := Add(Add(Scale(m.x, v.x), Scale(m.y, v.y)), Add(Scale(m.z, v.z), Scale(m.w, v.w)));
    ColumnSumLane(m, v, 0);
    ColumnSumLane(m, v, 1);
    ColumnSumLane(m, v, 2);
    ColumnSumLane(m, v, 3);
    assert MulVec(m, v) == Vec4(Lane(r, 0), Lane(r, 1), Lane(r, 2), Lane(r, 3));
  }

  /** Lane `i` of the weighted columns, summed in pairs, is row `i` times `v`. */
  lemma ColumnSumLane(m: Mat4, v: Vec4, i: nat)
    requires i < 4
    ensures Lane(Add(Add(Scale(m.x, v.x), Scale(m.y, v.y)), Add(Scale(m.z, v.z), Scale(m.w, v.w))), i) == RowDot(m, i, v)
  {
    PairedSum(Lane(m.x, i) * v.x, Lane(m.y, i) * v.y, Lane(m.z, i) * v.z, Lane(m.w, i) * v.w);
  }

  /** A sum of four terms, grouped in pairs. */
  lemma PairedSum(a: real, b: real, c: real, d: real)
    ensures (a + b) + (c + d) == a + b + c + d
  {
  }

  /** The matrix product: column `j` is `a` times column `j` of `b`. */
  function MulMat(a: Mat4, b: Mat4): (r: Mat4)
    ensures forall j :: 0 <= j < 4 ==> Column(r, j) == MulVec(a, Column(b, j))
  {
    Mat4(MulVec(a, b.x), MulVec(a, b.y), MulVec(a, b.z), MulVec(a, b.w))
  }

  /** Entry (i, j) of a product is row `i` of `a` dotted with column `j` of `b`. */
  lemma MulMatEntry(a: Mat4, b: Mat4, i: nat, j: nat)
    requires i < 4 && j < 4
    ensures Entry(MulMat(a, b), i, j) == RowDot(a, i, Column(b, j))
  {
  }

  /** The transpose: the columns of `m` become the rows of the result. */
  function Transpose(m: Mat4): (r: Mat4)
    ensures forall i, j :: 0 <= i < 4 && 0 <= j < 4 ==> Entry(r, i, j) == Entry(m, j, i)
  {
    FromRows([m.x.x, m.x.y, m.x.z, m.x.w,
              m.y.x, m.y.y, m.y.z, m.y.w,
              m.z.x, m.z.y, m.z.z, m.z.w,
              m.w.x, m.w.y, m.w.z, m.w.w])
  }

  lemma TransposeInvolution(m: Mat4)
    ensures Transpose(Transpose(m)) == m
  {
    EntriesDetermineMatrix(Transpose(Transpose(m)), m);
  }

  // ---------------------------------------------------------------------
  // Algebraic laws the conformance tests exercise.

  /** `c * (a + b) == c * a + c * b` and `(c + d) * a == c * a + d * a`. */
  lemma ScaleDistributes(a: Vec4, b: Vec4, c: real, d: real)
    ensures ScaleLeft(c, Add(a, b)) == Add(ScaleLeft(c, a), ScaleLeft(c, b))
    ensures ScaleLeft(c + d, a) == Add(ScaleLeft(c, a), ScaleLeft(d, a))
  {
    var l, r := ScaleLeft(c, Add(a, b)), Add(ScaleLeft(c, a), ScaleLeft(c, b));
    assert l.x == r.x && l.y == r.y && l.z == r.z && l.w == r.w;
    var l', r' := ScaleLeft(c + d, a), Add(ScaleLeft(c, a), ScaleLeft(d, a));
    assert l'.x == r'.x && l'.y == r'.y && l'.z == r'.z && l'.w == r'.w;
  }

  /** A row product is additive in the vector. */
  lemma RowDotAdd(m: Mat4, i: nat, u: Vec4, v: Vec4)
    requires i < 4
    ensures RowDot(m, i, Add(u, v)) == RowDot(m, i, u) + RowDot(m, i, v)
  {
  }

  /** A row product is homogeneous in the vector. */
  lemma RowDotScale(m: Mat4, i: nat, u: Vec4, s: real)
    requires i < 4
    ensures RowDot(m, i, Scale(u, s)) == RowDot(m, i, u) * s
  {
  }

  /** The matrix-vector product is additive: `A x + A y == A (x + y)`. */
  lemma MulVecAdditive(m: Mat4, u: Vec4, v: Vec4)
    ensures Add(MulVec(m, u), MulVec(m, v)) == MulVec(m, Add(u, v))
  {
    RowDotAdd(m, 0, u, v);
    RowDotAdd(m, 1, u, v);
    RowDotAdd(m, 2, u, v);
    RowDotAdd(m, 3, u, v);
  }

  /** The matrix-vector product is homogeneous: `A (x z) == (A x) z`. */
  lemma MulVecHomogeneous(m: Mat4, u: Vec4, s: real)
    ensures MulVec(m, Scale(u, s)) == Scale(MulVec(m, u), s)
  {
    RowDotScale(m, 0, u, s);
    RowDotScale(m, 1, u, s);
    RowDotScale(m, 2, u, s);
    RowDotScale(m, 3, u, s);
  }

  /** `(B A) x == B (A x)`: the matrix product composes the linear maps. */
  lemma MulMatComposes(b: Mat4, a: Mat4, v: Vec4)
    ensures MulVec(MulMat(b, a), v) == MulVec(b, MulVec(a, v))
  {
    var ab := MulMat(b, a);
    var sx, sy, sz, sw := Scale(a.x, v.x), Scale(a.y, v.y), Scale(a.z, v.z), Scale(a.w, v.w);
    MulVecByColumns(ab, v);
    MulVecByColumns(a, v);
    MulVecHomogeneous(b, a.x, v.x);
    MulVecHomogeneous(b, a.y, v.y);
    MulVecHomogeneous(b, a.z, v.z);
    MulVecHomogeneous(b, a.w, v.w);
    MulVecAdditive(b, sx, sy);
    MulVecAdditive(b, sz, sw);
    MulVecAdditive(b, Add(sx, sy), Add(sz, sw));
  }
}
