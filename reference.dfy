// The reference backend (src/vector/Reference.h). Its vector operators and
// most matrix operators are the lane expressions of module Lanes; the two
// matrix products are loops that write one lane at a time, and they are
// modelled here as those loops.

module Reference {
  import L = Lanes

  /**
   * The running sum of the inner loop: row `i` of `m` times `x`, over the
   * first `k` columns (the first term is assigned, the rest added).
   */
  function RowPartial(m: L.Mat4, i: nat, x: L.Vec4, k: nat): real
    requires i < 4 && 1 <= k <= 4
  {
    if k == 1 then L.Entry(m, i, 0) * L.Lane(x, 0)
    else RowPartial(m, i, x, k - 1) + L.Entry(m, i, k - 1) * L.Lane(x, k - 1)
  }

  /** All four columns summed give the row's dot product. */
  lemma RowPartialComplete(m: L.Mat4, i: nat, x: L.Vec4)
    requires i < 4
    ensures RowPartial(m, i, x, 4) == L.RowDot(m, i, x)
  {
    assert RowPartial(m, i, x, 2) == L.Entry(m, i, 0) * x.x + L.Entry(m, i, 1) * x.y;
  }

  /**
   * `Matrix * Vector`: for each row, lane `ii` of the result is assigned the
   * first product and then accumulates the other three. `init` is the
   * indeterminate content of the default-constructed result; every lane of
   * it is overwritten.
   */
  method MulVec(m: L.Mat4, x: L.Vec4, init: L.Vec4) returns (v: L.Vec4)
    ensures v == L.MulVec(m, x)
  {
    v := init;
    var ii := 0;
    while ii < 4
      invariant 0 <= ii <= 4
      invariant forall i :: 0 <= i < ii ==> L.Lane(v, i) == L.RowDot(m, i, x)
    {
      v := L.WithLane(v, ii, L.Entry(m, ii, 0) * L.Lane(x, 0));
      var kk := 1;
      while kk < 4
        invariant 1 <= kk <= 4
        invariant L.Lane(v, ii) == RowPartial(m, ii, x, kk)
        invariant forall i :: 0 <= i < ii ==> L.Lane(v, i) == L.RowDot(m, i, x)
      {
        v := L.WithLane(v, ii, L.Lane(v, ii) + L.Entry(m, ii, kk) * L.Lane(x, kk));
        kk := kk + 1;
      }
      RowPartialComplete(m, ii, x);
      ii := ii + 1;
    }
    L.LanesDetermineVector(v, L.MulVec(m, x));
  }

  /** The matrix with entry (i, j) replaced: `m[j][i] = s`. */
  function WithEntry(m: L.Mat4, i: nat, j: nat, s: real): (r: L.Mat4)
    requires i < 4 && j < 4
    ensures L.Entry(r, i, j) == s
    ensures forall p, q :: 0 <= p < 4 && 0 <= q < 4 && (p, q) != (i, j) ==> L.Entry(r, p, q) == L.Entry(m, p, q)
  {
    var c := L.WithLane(L.Column(m, j), i, s);
    if j == 0 then m.(x := c) else if j == 1 then m.(y := c)
    else if j == 2 then m.(z := c) else m.(w := c)
  }

  /** Entry (i, j) of the product: row `i` of `a` times column `j` of `b`. */
  lemma ProductEntry(a: L.Mat4, b: L.Mat4, i: nat, j: nat)
    requires i < 4 && j < 4
    ensures L.Entry(L.MulMat(a, b), i, j) == L.RowDot(a, i, L.Column(b, j))
  {
  }

  /**
   * `Matrix * Matrix`: for each row `ii` and column `jj`, entry (ii, jj) is
   * assigned the first product and accumulates the other three.
   */
  method MulMat(m: L.Mat4, a: L.Mat4, init: L.Mat4) returns (r: L.Mat4)
    ensures r == L.MulMat(m, a)
  {
    r := init;
    var ii := 0;
    while ii < 4
      invariant 0 <= ii <= 4
      invariant forall i, j :: 0 <= i < ii && 0 <= j < 4 ==> L.Entry(r, i, j) == L.RowDot(m, i, L.Column(a, j))
    {
      var jj := 0;
      while jj < 4
        invariant 0 <= jj <= 4
        invariant forall i, j :: 0 <= i < ii && 0 <= j < 4 ==> L.Entry(r, i, j) == L.RowDot(m, i, L.Column(a, j))
        invariant forall j :: 0 <= j < jj ==> L.Entry(r, ii, j) == L.RowDot(m, ii, L.Column(a, j))
      {
        r := WithEntry(r, ii, jj, L.Entry(m, ii, 0) * L.Entry(a, 0, jj));
        var kk := 1;
        while kk < 4
          invariant 1 <= kk <= 4
          invariant L.Entry(r, ii, jj) == RowPartial(m, ii, L.Column(a, jj), kk)
          invariant forall i, j :: 0 <= i < ii && 0 <= j < 4 ==> L.Entry(r, i, j) == L.RowDot(m, i, L.Column(a, j))
          invariant forall j :: 0 <= j < jj ==> L.Entry(r, ii, j) == L.RowDot(m, ii, L.Column(a, j))
        {
          r := WithEntry(r, ii, jj, L.Entry(r, ii, jj) + L.Entry(m, ii, kk) * L.Entry(a, kk, jj));
          kk := kk + 1;
        }
        RowPartialComplete(m, ii, L.Column(a, jj));
        jj := jj + 1;
      }
      ii := ii + 1;
    }
    forall i, j | 0 <= i < 4 && 0 <= j < 4 ensures L.Entry(r, i, j) == L.Entry(L.MulMat(m, a), i, j) {
      ProductEntry(m, a, i, j);
    }
    L.EntriesDetermineMatrix(r, L.MulMat(m, a));
  }
}
