// The fixture values of the test programs (src/test/Conformance.cpp and
// Test.cpp at the repository root), with the facts about them the tests
// rely on.

module Fixtures {
  import L = Lanes

  /** The vector `a` of most fixtures, (1, 2, 3, 4); also the vector `x` of the matrix fixtures. */
  const Ascending: L.Vec4 := L.Vec4(1.0, 2.0, 3.0, 4.0)

  /** The vector `b` of the algebraic, length and dot product fixtures, (2, 3, 4, 5). */
  const Shifted: L.Vec4 := L.Vec4(2.0, 3.0, 4.0, 5.0)

  /** The vector `b` of the comparison fixture: equal to `Ascending` in lane 0 only. */
  const PartlyEqual: L.Vec4 := L.Vec4(1.0, 1.0, 2.0, 3.0)

  /** The operands of the cross product fixture, (2, 0, 0, 0) and (0, 3, 0, 0). */
  const AlongX: L.Vec4 := L.Vec4(2.0, 0.0, 0.0, 0.0)
  const AlongY: L.Vec4 := L.Vec4(0.0, 3.0, 0.0, 0.0)

  /** The matrix `A` of the scalar and matrix product fixtures (symmetric, so its columns are its rows). */
  const Counting: L.Mat4 :=
    L.Mat4(L.Vec4(1.0, 2.0, 3.0, 4.0), L.Vec4(2.0, 3.0, 4.0, 3.0), L.Vec4(3.0, 4.0, 3.0, 2.0), L.Vec4(4.0, 3.0, 2.0, 1.0))

  /** `B = 2 A` of the scalar product fixture. */
  const Doubled: L.Mat4 :=
    L.Mat4(L.Vec4(2.0, 4.0, 6.0, 8.0), L.Vec4(4.0, 6.0, 8.0, 6.0), L.Vec4(6.0, 8.0, 6.0, 4.0), L.Vec4(8.0, 6.0, 4.0, 2.0))

  /** The identity `I` of the matrix-vector fixture. */
  const Identity: L.Mat4 :=
    L.Mat4(L.Vec4(1.0, 0.0, 0.0, 0.0), L.Vec4(0.0, 1.0, 0.0, 0.0), L.Vec4(0.0, 0.0, 1.0, 0.0), L.Vec4(0.0, 0.0, 0.0, 1.0))

  /** The permutation matrix of the fixtures (`A` of the matrix-vector fixture, `B` of the matrix-matrix one). */
  const Permutation: L.Mat4 :=
    L.Mat4(L.Vec4(0.0, 0.0, 1.0, 0.0), L.Vec4(0.0, 0.0, 0.0, 1.0), L.Vec4(0.0, 1.0, 0.0, 0.0), L.Vec4(1.0, 0.0, 0.0, 0.0))

  /** `y`, the permuted `Ascending`. */
  const Permuted: L.Vec4 := L.Vec4(4.0, 3.0, 1.0, 2.0)

  /** `C = A B` of the matrix-matrix fixture. */
  const Product: L.Mat4 :=
    L.Mat4(L.Vec4(3.0, 4.0, 3.0, 2.0), L.Vec4(4.0, 3.0, 2.0, 1.0), L.Vec4(2.0, 3.0, 4.0, 3.0), L.Vec4(1.0, 2.0, 3.0, 4.0))

  /** The fixture matrices are the sixteen-float initialisers of the source, read row by row. */
  lemma FixturesAreRowMajor()
    ensures Counting == L.FromRows([1.0, 2.0, 3.0, 4.0, 2.0, 3.0, 4.0, 3.0, 3.0, 4.0, 3.0, 2.0, 4.0, 3.0, 2.0, 1.0])
    ensures Doubled == L.FromRows([2.0, 4.0, 6.0, 8.0, 4.0, 6.0, 8.0, 6.0, 6.0, 8.0, 6.0, 4.0, 8.0, 6.0, 4.0, 2.0])
    ensures Identity == L.FromRows([1.0, 0.0, 0.0, 0.0, 0.0, 1.0, 0.0, 0.0, 0.0, 0.0, 1.0, 0.0, 0.0, 0.0, 0.0, 1.0])
    ensures Permutation == L.FromRows([0.0, 0.0, 0.0, 1.0, 0.0, 0.0, 1.0, 0.0, 1.0, 0.0, 0.0, 0.0, 0.0, 1.0, 0.0, 0.0])
    ensures Product == L.FromRows([3.0, 4.0, 2.0, 1.0, 4.0, 3.0, 3.0, 2.0, 3.0, 2.0, 4.0, 3.0, 2.0, 1.0, 3.0, 4.0])
  {
  }

  /** The permutation maps (x, y, z, w) to (w, z, x, y), and the identity maps every vector to itself. */
  lemma PermutationMaps(x: L.Vec4)
    ensures L.MulVec(Permutation, x) == L.Vec4(x.w, x.z, x.x, x.y)
    ensures L.MulVec(Identity, x) == x
  {
  }

  /** A vector with a single lane 1 and the rest 0 selects a column. */
  lemma SelectsColumns(m: L.Mat4)
    ensures L.MulVec(m, L.Vec4(1.0, 0.0, 0.0, 0.0)) == m.x && L.MulVec(m, L.Vec4(0.0, 1.0, 0.0, 0.0)) == m.y
    ensures L.MulVec(m, L.Vec4(0.0, 0.0, 1.0, 0.0)) == m.z && L.MulVec(m, L.Vec4(0.0, 0.0, 0.0, 1.0)) == m.w
  {
  }

  // Each lemma below evaluates one fixture expression of the tests.

  lemma SumOfFixtures()
    ensures L.Add(Ascending, Shifted) == L.Vec4(3.0, 5.0, 7.0, 9.0)
  {
  }

  lemma DifferenceOfFixtures()
    ensures L.Sub(Ascending, Shifted) == L.Vec4(-1.0, -1.0, -1.0, -1.0)
  {
  }

  lemma HalfOfAscending()
    ensures L.Scale(Ascending, 0.5) == L.Vec4(0.5, 1.0, 1.5, 2.0)
  {
  }

  lemma AscendingOverHalf()
    ensures L.Div(Ascending, 0.5) == L.Vec4(2.0, 4.0, 6.0, 8.0)
  {
  }

  lemma DotOfFixtures()
    ensures L.Dot(Ascending, Shifted) == 40.0
  {
  }

  lemma AscendingLengthSqr()
    ensures L.LengthSqr(Ascending) == 30.0
  {
  }

  lemma ShiftedLengthSqr()
    ensures L.LengthSqr(Shifted) == 54.0
  {
  }

  lemma CrossOfAxes()
    ensures L.Cross(AlongX.(w := 0.0), AlongY.(w := 0.0)) == L.Vec4(0.0, 0.0, 6.0, 0.0)
  {
  }

  lemma CrossOfAxesSwapped()
    ensures L.Cross(AlongY.(w := 0.0), AlongX.(w := 0.0)) == L.Vec4(0.0, 0.0, -6.0, 0.0)
  {
  }

  lemma CountingDoubled()
    ensures L.MatScale(Counting, 2.0) == Doubled
  {
  }

  lemma DoubledHalved()
    ensures L.MatDiv(Doubled, 2.0) == Counting
  {
  }

  lemma CountingTimesPermutation()
    ensures L.MulMat(Counting, Permutation) == Product
  {
    SelectsColumns(Counting);
  }
}
