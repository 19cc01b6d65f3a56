# A verified model of Qartar/vector

Qartar/vector is a C++ library of 4-lane float vectors and 4×4 matrices. The
library is written several times over:

- scalar backends: the reference header, `default` and `aligned`;
- SSE backends: two revisions of the `intrinsic` header, the older root
  header, and the union-aliased header.

Around the library sit other parts of the repository:

- ray/sphere and ray/capsule intersection;
- conformance tests that check every backend against fixed fixtures;
- a small ray tracer that writes BMP files;
- a benchmark harness with its timers;
- a CPU-feature probe.

This project models each of these in Dafny over `real` lanes and proves:

- that every backend computes the same lane algebra;
- what each test, the tracer and the harness promise;
- where the source falls short of its evident intent (see "## Findings").

Modules:

- `Lanes`: the reference lane algebra (vectors, matrices, dot, cross,
  project/reject/reflect, products, transpose) and its laws.
- `Sse`: the SSE instructions the backends use, as pure functions on four
  lanes. These are SHUFPS and its immediate, the broadcasts, the DPPS
  masks, and the CMPEQPS/CMPNEQPS move masks. The unpack, movelh/movehl
  and haddps semantics follow the Intel 64 and IA-32 Architectures Software
  Developer's Manual, Volume 2.
- `Features`: the `_F_*` feature bits, `_HAS_FEATURE`, and the feature
  probe (`check_feature`, `to_upper`, the accumulation in `main`).
- `Intrinsic`: the SSE backend of `src/vector/Intrinsic.h`. It covers the
  broadcast Scalar, in-place lane assignment through `VectorScalar`, the
  three `_vec_dp_ps` variants, and the shuffled cross product and matrix
  products.
- `MathIntrinsic`: where `src/math/Intrinsic.h` differs from that header.
  These are the haddps scalar check and `Delegate<N>`.
- `LegacyIntrinsic`: the root `Intrinsic.h`. It has a reversed SHUFPS
  argument order, the dpps masks 0xf1/0xff, a reciprocal division, and the
  defective `!=`.
- `Aliased`: the union-aliased backend. It covers lane writes through
  `operator[]`, the unpack/move transpose, and the float-scalar operators.
- `Backends`: the backends the tests instantiate, with the operators the
  tests call.
- `Colors`: `Color` and its in-place `+=`.
- `Intersect`: `hitSphere` and `hitCapsule` of `src/vector/Intersect.h`.
- `LegacyIntersect`: the split-plane `hitCapsule` of the root `Intersect.h`.
- `Fixtures`, `Conformance` and `LegacyTests`: the fixtures and test
  functors of `src/test/Conformance.cpp` and `Test.cpp`.
- `Scenes`: nearest-hit selection and bounded shading recursion.
- `Tracing`: the per-pixel loop and the fixed scene.
- `Images` and `Bitmaps`: gamma encoding, BGR packing, BMP headers and the
  directory prefix.
- `Reference`: the loop-based matrix products of the reference header.
- `Benchmarks` and `LegacyBenchmarks`: the two benchmark harnesses.
- `Timers`: the Windows and POSIX timers.

Inputs the program obtains from the machine become parameters:

- `sqrt`, `rsqrt`, `pow`, `exp`, `sin`;
- the BRDF terms `Kd`/`Ks`;
- cpuid results;
- performance-counter and `clock_gettime` readings;
- whether the build targets Windows.

Lemmas that need a true square root require `IsSqrt(sqrt)`.

## Model

| member | source | states |
|---|---|---|
| Lanes.WithLane | src/vector/Reference.h:28-34 | a write through the mutable `operator[](i)` sets lane i to the value and leaves the other three lanes unchanged |
| Lanes.LanesDetermineVector | src/vector/Reference.h:28-34 | two vectors whose four indexed lanes agree are equal |
| Lanes.LaneLayout | src/vector/Reference.h:28-34 | `operator[](i)` reads x, y, z, w for i = 0..3 |
| Lanes.AddLanes | src/vector/Reference.h:44-46 | lane i of a + b is the sum of the lanes i |
| Lanes.SubLanes | src/vector/Reference.h:48-50 | lane i of a - b is the difference of the lanes i, and adding b back gives a |
| Lanes.ScaleLanes | src/vector/Reference.h:52-54 | every lane of v·s is that lane times s, and v·1 = v |
| Lanes.ScaleLeftLanes | src/vector/Reference.h:56-58 | s·v is v·s: every lane is s times that lane |
| Lanes.HadamardLanes | src/vector/Intrinsic.h:390-392 | lane i of the Hadamard product is the product of the lanes i, so the product is symmetric |
| Lanes.Quot | src/vector/Reference.h:60-62 | for a non-zero divisor the quotient times the divisor is the dividend; a zero divisor gives the placeholder 0 |
| Lanes.Equal | src/vector/Reference.h:36-38 | `==` holds exactly when all four lanes are equal |
| Lanes.NotEqual | src/vector/Reference.h:40-42 | `!=` is the negation of `==` |
| Lanes.Div | src/vector/Reference.h:60-62 | dividing by a non-zero s is undone by scaling by s |
| Lanes.Neg | src/vector/Reference.h:64-66 | unary minus is the additive inverse and equals scaling by -1 |
| Lanes.Dot | src/vector/Reference.h:89-91 | the dot product is the sum of the four lane products (of the Hadamard product, `Scale`) |
| Lanes.DotSymmetric | src/vector/Reference.h:89-91 | the dot product is symmetric |
| Lanes.DotAdd | src/vector/Reference.h:89-91 | the dot product distributes over vector addition |
| Lanes.DotSub | src/vector/Reference.h:89-91 | the dot product distributes over vector subtraction |
| Lanes.DotScale | src/vector/Reference.h:89-91 | the dot product is homogeneous in its second argument |
| Lanes.LengthSqr | src/vector/Reference.h:76-78 | the squared length is the self dot product, is non-negative, and is 0 for the zero vector |
| Lanes.Length | src/vector/Reference.h:68-70 | with a true square root, the length is non-negative and squares to the squared length |
| Lanes.LengthFast | src/vector/Reference.h:72-74 | `LengthFast` is the same value as `Length` |
| Lanes.Normalize | src/vector/Reference.h:80-82 | for a non-zero length, scaling the result by the length gives back the vector |
| Lanes.NormalizeIsUnit | src/vector/Reference.h:80-82 | a normalised non-zero vector has squared length 1 |
| Lanes.NormalizeFast | src/vector/Reference.h:84-86 | `NormalizeFast` is the same vector as `Normalize` |
| Lanes.DivLengthSqr | src/vector/Reference.h:60-62 | dividing by s divides the squared length by s² |
| Lanes.Cross | src/vector/Reference.h:94-99 | the cross product requires both w lanes to be 0 (the assert) and has w = 0 |
| Lanes.CrossOrthogonal | src/vector/Reference.h:94-99 | the cross product is orthogonal to both operands |
| Lanes.CrossAnticommutative | src/vector/Reference.h:94-99 | b × a = -(a × b), and a × a = 0 |
| Lanes.Project | src/vector/Reference.h:102-104 | for a non-zero direction t, the projection of a is t scaled by (t·a)/(t·t) |
| Lanes.Reject | src/vector/Reference.h:107-109 | the rejection plus the projection gives back a |
| Lanes.RejectOrthogonal | src/vector/Reference.h:107-109 | for a non-zero t, the rejection is orthogonal to t |
| Lanes.Reflect | src/vector/Reference.h:112-114 | the reflection plus twice the projection gives back a |
| Lanes.ReflectNegatesNormalPart | src/vector/Reference.h:112-114 | reflection negates the component along t and is a - 2((t·a)/(t·t))t |
| Lanes.ReflectInvolution | src/vector/Reference.h:112-114 | reflecting twice gives back the vector |
| Lanes.ReflectIsometric | src/vector/Reference.h:112-114 | reflection preserves the squared length |
| Lanes.EntriesDetermineMatrix | src/vector/Reference.h:146-152 | matrices with the same (row, column) entries are equal |
| Lanes.FromColumns | src/vector/Reference.h:135-136 | the column constructor stores its four arguments as columns 0..3 |
| Lanes.FromRows | src/vector/Reference.h:137-144 | the 16-float constructor is row-major: entry (i, j) is argument 4i + j |
| Lanes.MatEqual | src/vector/Reference.h:154-156 | matrix `==` holds exactly of equal matrices |
| Lanes.MatNotEqual | src/vector/Reference.h:158-160 | matrix `!=` is the negation of `==` |
| Lanes.MatAdd | src/vector/Reference.h:162-164 | every column of the sum is the sum of the columns (also src/vector/Aliased.h:234-239) |
| Lanes.MatSub | src/vector/Reference.h:166-168 | every column of the difference is the difference of the columns, and adding b back gives a (also src/vector/Aliased.h:241-246) |
| Lanes.MatScale | src/vector/Reference.h:170-172 | every column of m·s is that column scaled by s |
| Lanes.MatScaleLeft | src/vector/Reference.h:178-180 | every column of s·m is s times that column |
| Lanes.MatDiv | src/vector/Reference.h:174-176 | dividing by a non-zero s is undone by scaling by s |
| Lanes.MatHadamard | src/vector/Reference.h:216-221 | every column of the Hadamard product is the lane product of the columns (also src/vector/Aliased.h:317-322) |
| Lanes.MulVecByColumns | src/vector/Reference.h:182-192 | M·v is the sum over k of column k scaled by v[k] |
| Lanes.MulVecLanes | src/vector/Reference.h:182-192 | lane i of M·v is Σₖ M[k][i]·v[k], column k of M weighted by lane k of v |
| Lanes.MulMat | src/vector/Reference.h:194-206 | column j of A·B is A times column j of B |
| Lanes.MulMatEntry | src/vector/Reference.h:194-206 | entry (i, j) of A·B is row i of A dotted with column j of B |
| Lanes.Transpose | src/vector/Reference.h:208-213 | entry (i, j) of the transpose is entry (j, i) |
| Lanes.TransposeInvolution | src/vector/Reference.h:208-213 | transposing twice gives back the matrix |
| Lanes.ScaleDistributes | src/test/Conformance.cpp:60-66 | scalar multiplication distributes over vector addition and over scalar addition |
| Lanes.MulVecAdditive | src/vector/Reference.h:182-192 | M·u + M·v = M·(u + v) |
| Lanes.MulVecHomogeneous | src/vector/Reference.h:182-192 | M·(u s) = (M·u) s |
| Lanes.MulMatComposes | src/vector/Reference.h:194-206 | (B·A)·v = B·(A·v) |
| Reference.RowPartialComplete | src/vector/Reference.h:182-192 | the accumulated sum over all four k equals row i dotted with x |
| Reference.MulVec | src/vector/Reference.h:182-192 | the nested accumulation loop, started from any initial vector, computes the product M·x |
| Reference.WithEntry | src/vector/Reference.h:194-206 | writing `m[jj][ii]` changes that entry only |
| Reference.ProductEntry | src/vector/Reference.h:194-206 | entry (i, j) of the product is row i of the left matrix dotted with column j of the right |
| Reference.MulMat | src/vector/Reference.h:194-206 | the triple accumulation loop, started from any initial matrix, computes the product |
| Sse.Selector | src/vector/Intrinsic.h:25-27 | each 2-bit field of a shuffle immediate selects a lane below 4 |
| Sse.Pack | src/vector/Intrinsic.h:25-27 | packing four lane indices gives an immediate that decodes back to the same four indices |
| Sse.PackSelectors | src/vector/Intrinsic.h:25-27 | every immediate is the packing of its own four fields |
| Sse.SelectorBits | src/vector/Intrinsic.h:25-27 | field k of the immediate is bits 2k..2k+1 |
| Sse.Set1 | src/vector/Intrinsic.h:47-48 | a broadcast puts the value in all four lanes |
| Sse.Dp | src/vector/Intrinsic.h:405-427 | DPPS with mask 0xff broadcasts the dot product; with mask 0xf1 it puts the dot product in lane 0 and zeroes the rest |
| Sse.CmpEqMask | src/vector/Intrinsic.h:286-288 | the CMPEQPS move mask is a 4-bit value that is 0xf exactly when the vectors are equal |
| Sse.CmpNeqMask | src/vector/Intrinsic.h:290-292 | the CMPNEQPS move mask is non-zero exactly when some lane differs, and 0xf exactly when every lane differs |
| Sse.ShuffleLanes | src/vector/Intrinsic.h:197-200 | SHUFPS: lanes 0 and 1 take the selected lanes of a, lanes 2 and 3 the selected lanes of b |
| Sse.UnpackLoLanes | src/vector/Aliased.h:296-298 | UNPCKLPS interleaves the low halves: lanes 2k and 2k + 1 are lane k of a and of b |
| Sse.UnpackHiLanes | src/vector/Aliased.h:300-302 | UNPCKHPS interleaves the high halves: lanes 2k and 2k + 1 are lane 2 + k of a and of b |
| Sse.MoveLHLanes | src/vector/Aliased.h:306 | MOVLHPS keeps the low half of a and puts the low half of b above it |
| Sse.MoveHLLanes | src/vector/Aliased.h:308 | MOVHLPS moves the high half of b to the low half and keeps the high half of a |
| Sse.HAddLanes | src/vector/Intrinsic.h:410-414 | HADDPS sums the adjacent lane pairs of a into lanes 0, 1 and those of b into lanes 2, 3 |
| Sse.DivPsLanes | src/vector/Intrinsic.h:111 | DIVPS: each quotient lane times a non-zero divisor lane gives the dividend lane |
| Sse.SqrtPsLanes | src/vector/Intrinsic.h:135 | SQRTPS with a true root: each lane is the non-negative root of a non-negative input lane |
| Sse.RsqrtPsLanes | src/vector/Intrinsic.h:336 | RSQRTPS applies the approximate reciprocal root to every lane |
| Sse.MulSsLanes | Intrinsic.h:60 | MULSS multiplies lane 0 and passes lanes 1..3 of a through |
| Sse.FmAddLanes | src/vector/Intrinsic.h:382 | VFMADD gives a·b + c in every lane |
| Intrinsic.Shufps | src/vector/Intrinsic.h:25-27 | `SHUFPS(w, z, y, x)` is the immediate whose lanes 0..3 select x, y, z, w |
| Intrinsic.ScalarOf | src/vector/Intrinsic.h:47-48 | a Scalar built from a float is a broadcast that reads back as that float |
| Intrinsic.ScalarCheck | src/vector/Intrinsic.h:154-163 | the debug check (rotate the lanes by one and compare all four) passes exactly when all lanes are equal |
| Intrinsic.Mirror | src/vector/Intrinsic.h:78-92 | swapping the operands of a comparison and mirroring the operator gives the same truth value |
| Intrinsic.ScalarCompare | src/vector/Intrinsic.h:54-76 | Scalar comparisons compare the floats the Scalars hold |
| Intrinsic.FloatCompare | src/vector/Intrinsic.h:78-92 | a float on the left compares with the Scalar's float under the same operator |
| Intrinsic.ScalarNeg | src/vector/Intrinsic.h:94-96 | negation keeps the broadcast invariant and negates the value |
| Intrinsic.ScalarArith | src/vector/Intrinsic.h:98-112 | Scalar `+ - * /` broadcast the float result |
| Intrinsic.FloatArith | src/vector/Intrinsic.h:114-128 | float-on-the-left `+ - * /` broadcast the float result |
| Intrinsic.ScalarAbs | src/vector/Intrinsic.h:130-132 | `abs` is a non-negative broadcast equal to the value or its negation |
| Intrinsic.ScalarSqrt | src/vector/Intrinsic.h:134-136 | `sqrt` broadcasts the square root of the value |
| Intrinsic.ScalarExp | src/vector/Intrinsic.h:138-140 | `exp` broadcasts the exponential of lane 0 |
| Intrinsic.ScalarPow | src/vector/Intrinsic.h:142-144 | `pow` broadcasts the power of the two lane-0 values |
| Intrinsic.Broadcast | src/vector/Intrinsic.h:276-284 | the const `operator[](i)`, i < 4, broadcasts lane i, and the result passes the scalar check |
| Intrinsic.LaneCompare | src/vector/Intrinsic.h:171-193 | comparing `v[i]` with a Scalar compares lane i with the Scalar's value |
| Intrinsic.AssignX | src/vector/Intrinsic.h:222-229 | lane 0 takes s's lane 0; the other lanes are unchanged |
| Intrinsic.AssignY | src/vector/Intrinsic.h:231-238 | lane 1 takes s's lane 1; the other lanes are unchanged |
| Intrinsic.AssignZ | src/vector/Intrinsic.h:240-247 | lane 2 takes s's lane 2; the other lanes are unchanged |
| Intrinsic.AssignW | src/vector/Intrinsic.h:249-256 | lane 3 takes s's lane 3; the other lanes are unchanged |
| Intrinsic.VectorScalar.constructor | src/vector/Intrinsic.h:218-220 | a lane reference is bound to a register and an index below 4 |
| Intrinsic.VectorScalar.Get | src/vector/Intrinsic.h:195-203 | reading a lane reference broadcasts that lane of the register |
| Intrinsic.VectorScalar.Assign | src/vector/Intrinsic.h:205-213 | assigning a broadcast Scalar sets that lane of the register in place, and no other lane |
| Intrinsic.AssignThenRead | src/vector/Intrinsic.h:195-213 | after `v[i] = f`, `v[i]` reads f and the register is v with lane i replaced |
| Intrinsic.VectorOf | src/vector/Intrinsic.h:269-270 | the four-float constructor puts x, y, z, w in lanes 0..3 |
| Intrinsic.VecEq | src/vector/Intrinsic.h:286-288 | `==` holds exactly of lane-wise equal vectors |
| Intrinsic.VecNotEq | src/vector/Intrinsic.h:290-292 | `!=` holds exactly when some lane differs, the negation of `==` |
| Intrinsic.MulScalar | src/vector/Intrinsic.h:302-304 | `v * s` scales every lane by the Scalar's value |
| Intrinsic.ScalarMul | src/vector/Intrinsic.h:306-308 | `s * v` scales every lane by the Scalar's value |
| Intrinsic.DivScalar | src/vector/Intrinsic.h:310-312 | `v / s` is lane-wise division by the Scalar's value |
| Intrinsic.VecNeg | src/vector/Intrinsic.h:314-316 | unary minus (0 - v) is the reference negation |
| Intrinsic.VecDp | src/vector/Intrinsic.h:405-427 | all three `_vec_dp_ps` variants (SSE4.1 dpps, SSE3 haddps, SSE shuffles) broadcast the dot product |
| Intrinsic.VecDot | src/vector/Intrinsic.h:340-342 | `v * a` is a valid Scalar holding the dot product |
| Intrinsic.LengthSqr | src/vector/Intrinsic.h:327-329 | `LengthSqr` is a valid Scalar holding the squared length |
| Intrinsic.Length | src/vector/Intrinsic.h:318-320 | `Length` is a valid Scalar holding the square root of the squared length |
| Intrinsic.LengthFast | src/vector/Intrinsic.h:322-325 | `LengthFast` is a valid Scalar holding q·rsqrt(q) for the squared length q |
| Intrinsic.LengthFastIsRoot | src/vector/Intrinsic.h:322-325 | with an exact reciprocal square root, `LengthFast` is the positive root of the squared length |
| Intrinsic.Normalize | src/vector/Intrinsic.h:331-333 | `Normalize` is the reference normalisation |
| Intrinsic.NormalizeFast | src/vector/Intrinsic.h:335-337 | `NormalizeFast` scales by the reciprocal square root of the squared length |
| Intrinsic.NormalizeFastIsUnit | src/vector/Intrinsic.h:335-337 | with an exact reciprocal square root, `NormalizeFast` of a non-zero vector has squared length 1 |
| Intrinsic.Cross | src/vector/Intrinsic.h:345-362 | the shuffle–multiply–shuffle cross product equals the reference formula on the xyz lanes and has w = 0, with no requirement on the w inputs |
| Intrinsic.Project | src/vector/Intrinsic.h:365-369 | for a non-zero direction, the projection equals the reference projection |
| Intrinsic.ProjectAsScale | src/vector/Intrinsic.h:365-369 | the projection is t scaled by the broadcast quotient (t·a)/(t·t) |
| Intrinsic.Reject | src/vector/Intrinsic.h:372-375 | for a non-zero direction, the rejection equals the reference rejection |
| Intrinsic.Reflect | src/vector/Intrinsic.h:378-387 | on a build with FMA, for a non-zero direction, the reflection equals the reference reflection |
| Intrinsic.ReflectMissingWithoutFma | src/vector/Intrinsic.h:383-386 | as written, a host with SSE and without FMA is buildable, and on it `Reflect` has no branch that compiles |
| Intrinsic.ReflectWithoutFma | src/vector/Intrinsic.h:383-386 | the non-FMA branch as intended, 2·proj subtracted from a, is the reference reflection across a non-zero direction |
| Intrinsic.ReflectOnHost | src/vector/Intrinsic.h:378-387 | `Reflect` with the branch the host's features select is the reference reflection across a non-zero direction |
| Intrinsic.ReflectBranchesAgree | src/vector/Intrinsic.h:378-387 | with FMA, the fused branch and the intended other branch agree for every direction |
| Intrinsic.MatEq | src/vector/Intrinsic.h:458-460 | matrix `==` holds exactly of equal matrices |
| Intrinsic.MatNotEq | src/vector/Intrinsic.h:462-464 | matrix `!=` is the negation of `==` |
| Intrinsic.MatMulScalar | src/vector/Intrinsic.h:466-471 | `m * s` scales every column by the Scalar's value |
| Intrinsic.ScalarMulMat | src/vector/Intrinsic.h:480-482 | `s * m` scales every column by the Scalar's value |
| Intrinsic.MatDivScalar | src/vector/Intrinsic.h:473-478 | `m / s` is column-wise division by the Scalar's value |
| Intrinsic.MulVec | src/vector/Intrinsic.h:484-498 | broadcasting the lanes of v and summing the scaled columns gives the reference M·v |
| Intrinsic.MulMat | src/vector/Intrinsic.h:500-505 | multiplying each column gives the reference A·B |
| MathIntrinsic.ScalarCheck | src/math/Intrinsic.h:153-164 | the haddps check (4·lane against the reduced lane sum) passes exactly when all lanes are equal, the same verdict as the rotate-and-compare check |
| MathIntrinsic.Delegate | src/math/Intrinsic.h:223-259 | `Delegate<N>::op` replaces exactly lane N with s's lane N |
| MathIntrinsic.Assign | src/math/Intrinsic.h:206-214 | assigning a broadcast Scalar through `VectorScalar` sets lane N of the register in place, and no other lane |
| LegacyIntrinsic.Shufps | Intrinsic.h:6-7 | the root `SHUFPS(x, y, z, w)` takes its indices in the reverse order of the newer macro and gives the same immediate |
| LegacyIntrinsic.VecNotEqAsWritten | Intrinsic.h:26-28 | the root `!=` as written holds only when every lane differs |
| LegacyIntrinsic.NotEqAsWrittenMissesPartialDifference | Intrinsic.h:22-28 | (1,2,3,4) and (1,1,2,3) differ, yet the root `!=` as written and `==` are both false for them |
| LegacyIntrinsic.MulScalar | Intrinsic.h:38-40 | `v * s` broadcasts the float and scales every lane (also the float operators of src/vector/Aliased.h:79-81) |
| LegacyIntrinsic.ScalarMul | Intrinsic.h:42-44 | `s * v` scales every lane |
| LegacyIntrinsic.DivScalar | Intrinsic.h:46-48 | multiplying by the reciprocal 1/s is lane-wise division by a non-zero s |
| LegacyIntrinsic.Length | Intrinsic.h:54-56 | dpps mask 0xf1 followed by sqrt_ss gives the reference length |
| LegacyIntrinsic.LengthFast | Intrinsic.h:58-61 | `LengthFast` is q·rsqrt(q) for the squared length q |
| LegacyIntrinsic.LengthSqr | Intrinsic.h:63-65 | lane 0 of dpps mask 0xf1 is the squared length |
| LegacyIntrinsic.Normalize | Intrinsic.h:67-69 | dividing by the square root of the broadcast (mask 0xff) squared length is the reference normalisation |
| LegacyIntrinsic.NormalizeFast | Intrinsic.h:71-73 | `NormalizeFast` scales by the reciprocal square root of the squared length |
| LegacyIntrinsic.Dot | Intrinsic.h:76-78 | lane 0 of dpps mask 0xf1 is the dot product |
| LegacyIntrinsic.Cross | Intrinsic.h:81-98 | with the reversed immediates, the cross product still equals the reference formula on xyz with w = 0, the same as the newer header |
| Aliased.Vector.constructor | src/vector/Aliased.h:52-53 | the four-float constructor puts x, y, z, w in lanes 0..3 |
| Aliased.Vector.Element | src/vector/Aliased.h:59-61 | the const `operator[](i)` reads lane i through the union |
| Aliased.Vector.SetElement | src/vector/Aliased.h:55-57 | a write through the mutable `operator[](i)` changes lane i only |
| Aliased.WriteThenRead | src/vector/Aliased.h:180-185 | after writing lane i, lane i reads the written value and any other lane keeps its value |
| Aliased.DivScalar | src/vector/Aliased.h:87-89 | `v / s` divides every lane by the broadcast float |
| Aliased.Length | src/vector/Aliased.h:95-97 | lane 0 of the broadcast dot product, under sqrt, is the reference length |
| Aliased.LengthFast | src/vector/Aliased.h:99-102 | `LengthFast` is lane 0 of the newer header's `LengthFast` |
| Aliased.Dot | src/vector/Aliased.h:117-119 | lane 0 of `_v_dp_ps` is the dot product |
| Aliased.Reflect | src/vector/Aliased.h:155-164 | both branches (FMA and multiply-subtract) give the reference reflection for a non-zero direction |
| Aliased.MatMulScalar | src/vector/Aliased.h:248-253 | `m * s` scales every column by the float |
| Aliased.MatDivScalar | src/vector/Aliased.h:255-260 | `m / s` divides every column by the float |
| Aliased.Transpose | src/vector/Aliased.h:289-314 | the unpacklo/unpackhi + movelh/movehl sequence equals the reference transpose |
| Aliased.TransposeSwapsEntries | src/vector/Aliased.h:289-314 | the aliased transpose swaps entries (i, j) and (j, i), and applying it twice gives back the matrix |
| Backends.Eq | Default.h:14-16 | `==` holds exactly of equal vectors on every backend (also Aligned.h:21-23) |
| Backends.NotEq | Default.h:18-20 | `!=` is the negation of `==` on every backend except the root SSE header as written, where it needs every lane to differ (also Aligned.h:25-27) |
| Backends.MulScalar | Default.h:30-32 | `v * s` scales every lane on every backend |
| Backends.ScalarMul | Default.h:34-36 | `s * v` scales every lane on every backend, so it agrees with `v * s` |
| Backends.DivScalar | Default.h:38-40 | `v / s` divides every lane by a non-zero s on every backend |
| Backends.ScalarAdd | src/test/Conformance.cpp:64 | adding two Scalars adds the floats they hold, on every backend |
| Backends.LengthSqr | Default.h:54-56 | `LengthSqr` is the sum of the squared lanes on every backend |
| Backends.Length | Default.h:46-48 | `Length` is sqrt of the squared length on every backend |
| Backends.Normalize | Default.h:58-60 | `Normalize` is the reference normalisation on every backend |
| Backends.NormalizeFast | Default.h:62-64 | on the scalar backends `NormalizeFast` is `Normalize`; on the SSE backends it scales by rsqrt of the squared length |
| Backends.Dot | Default.h:67-69 | the dot product is the sum of lane products on every backend |
| Backends.Cross | Default.h:72-77 | the scalar backends assert w = 0 on both operands; every backend gives the reference cross product of the xyz parts, with w = 0 (also Aligned.h:79-84) |
| Backends.MatNotEq | src/math/Intrinsic.h:465-467 | matrix `!=` holds exactly of different matrices on every backend with matrices |
| Backends.MatMulScalar | src/math/Intrinsic.h:469-474 | `m * s` is the reference column scaling on every backend with matrices |
| Backends.MatDivScalar | src/math/Intrinsic.h:476-481 | `m / s` is the reference column division on every backend with matrices |
| Backends.MulVec | src/math/Intrinsic.h:487-501 | M·v is the reference product on every backend with matrices |
| Backends.MulMat | src/math/Intrinsic.h:503-508 | A·B multiplies each column of B by that backend's M·v, and is the reference product on every backend with matrices |
| Colors.Channel | src/trace/Color.h:6-12 | `operator[]` maps indices 0..3 to r, g, b, a |
| Colors.ChannelsDetermineColor | src/trace/Color.h:6-12 | colours with the same four channels are equal |
| Colors.Add | src/trace/Color.h:22-24 | `+` adds channel by channel |
| Colors.Mul | src/trace/Color.h:26-28 | colour × colour multiplies channel by channel |
| Colors.Scale | src/trace/Color.h:36-39 | colour × float scales all four channels, alpha included (also the Scalar overload at 30-34) |
| Colors.AddLaws | src/trace/Color.h:22-24 | `+` is commutative and associative with black as its identity |
| Colors.ScaleLaws | src/trace/Color.h:36-39 | scaling distributes over `+`, and scaling by 0 gives black |
| Colors.ScaleComposes | src/trace/Color.h:26-39 | scaling twice is scaling by the product, and scaling commutes with colour × colour |
| Colors.ColorCell.constructor | src/trace/Color.h:3-4 | a colour variable starts with the given channels |
| Colors.ColorCell.AddAssign | src/trace/Color.h:14-20 | `+=` replaces the colour by its sum with c, in place, and returns the cell itself |
| Colors.ColorCell.SetChannel | src/trace/Color.h:6-8 | a write through the mutable `operator[]` changes that channel only |
| Colors.AccumulateTwo | src/trace/Color.h:14-20 | accumulating two colours with `+=` gives their sum in either order |
| Intersect.ContactValue | src/vector/Intersect.h:34-39 | the quadratic A t² + B t + C is \|u + t v\|² - r² |
| Intersect.RootsFactor | src/vector/Intersect.h:47-50 | with A ≠ 0 and d² = B² - 4AC, the quadratic factors through the two computed roots |
| Intersect.RootIsNearOrFar | src/vector/Intersect.h:47-50 | every root of the quadratic is t0 or t1 |
| Intersect.RootsSolve | src/vector/Intersect.h:47-50 | t0 and t1 are roots of the quadratic |
| Intersect.ComputedRootSolves | src/vector/Intersect.h:47-50 | with a true square root of the discriminant, the computed t0 and t1 solve the quadratic |
| Intersect.RootMeansDiscriminant | src/vector/Intersect.h:41-45 | a real root exists only when the discriminant is non-negative, so the `Dsqr < 0` early return misses no hit |
| Intersect.RootsOrdered | src/vector/Intersect.h:47-52 | with A > 0, t0 ≤ t1 |
| Intersect.RootsVieta | src/vector/Intersect.h:47-50 | with A ≠ 0, t0 + t1 = -B/A and t1 - t0 = D/A; with A = 0 both are the placeholder 0 |
| Intersect.SphereQuadraticTerms | src/vector/Intersect.h:34-39 | A is \|rayVec\|² ≥ 0 and C is \|start - origin\|² - r², negative exactly when the ray starts inside the sphere |
| Intersect.SphereNormalFacing | src/vector/Intersect.h:61-62 | the sphere normal is a unit vector pointing out of the sphere at the point when t0 ≥ 0 and into it otherwise |
| Intersect.SqrtExact | src/vector/Intersect.h:47-50 | a true square root of r² with r ≥ 0 is r |
| Intersect.OnSphereIsRoot | src/vector/Intersect.h:34-41 | the point at t lies on the sphere exactly when t is a root of the ray's quadratic |
| Intersect.HitSphereAsWritten | src/vector/Intersect.h:29-64 | as written: no hit when the discriminant is negative, t in [0, 1] on a hit, and the hit point taken at t0 whichever root was selected |
| Intersect.ExitRayQuadratic | src/vector/Intersect.h:36-40 | the ray from (0,0,0) to (2,0,0) against the unit sphere gives the quadratic 4t² - 1 |
| Intersect.ExitRayRoots | src/vector/Intersect.h:43-50 | that quadratic has discriminant 16 and roots -0.5 and 0.5 |
| Intersect.HitSphereAsWrittenFarRoot | src/vector/Intersect.h:52-60 | as written, when only t1 lies in [0, 1] the hit reports t1 but places the point at t0 |
| Intersect.ExitRayAsWritten | src/vector/Intersect.h:52-60 | as written, the exit ray reports t = 0.5 with the point (-1, 0, 0) |
| Intersect.HitSphereAsWrittenMisplacesPoint | src/vector/Intersect.h:60 | as written, the reported point is not the ray's point at the reported t |
| Intersect.HitSphereFarRoot | src/vector/Intersect.h:52-60 | corrected: when only t1 lies in [0, 1], the hit reports t1 with the point at t1 |
| Intersect.HitSphereAgreesOnT | src/vector/Intersect.h:52-58 | the test as written and the corrected one report a hit on the same inputs, with the same t |
| Intersect.HitSphere | src/vector/Intersect.h:29-64 | no hit when the discriminant is negative; on a hit, t is t0 or t1 in [0, 1] and the point is on the ray at t |
| Intersect.HitSphereOnSurface | src/vector/Intersect.h:52-62 | the reported point lies on the sphere |
| Intersect.HitSphereIsFirstContact | src/vector/Intersect.h:52-58 | if the segment meets the sphere at some s in [0, 1], a hit is reported with t ≤ s |
| Intersect.HitSphereMissIsExact | src/vector/Intersect.h:41-58 | when no hit is reported, no point of the segment lies on the sphere |
| Intersect.CylinderQuadraticTerms | src/vector/Intersect.h:74-79 | A is the squared length of the ray direction's rejection from the axis, ≥ 0; C is the squared distance of the start from the axis minus r², negative exactly when the start is inside the cylinder |
| Intersect.CylinderParameterChoice | src/vector/Intersect.h:89-92 | with a true sqrt, A ≠ 0 and a non-negative discriminant, t is t0 or t1 and a root; it is non-negative exactly when t1 is, and then it is at most t1 |
| Intersect.CapsuleBranch | src/vector/Intersect.h:81-101 | the branch is NaN exactly for a zero axis or A = 0; no roots on a negative discriminant; a cap branch names the end sphere past the end and otherwise the start sphere before the start; a side hit has t in [0, 1], lies on the ray and between the caps |
| Intersect.HitCapsuleAsWritten | src/vector/Intersect.h:66-108 | as written: the same NaN outcome and t range, and a cap branch returns `hitSphere` as written against that cap's sphere |
| Intersect.ParallelRayIsUnsolvable | src/vector/Intersect.h:74-89 | a ray parallel to the axis makes A = 0, and both versions give the NaN outcome |
| Intersect.CapRayPastEnd | src/vector/Intersect.h:89-95 | for the capsule (0,0,0)→(0,0,1), r = 1 and the ray (0,0,1)→(3,0,5), the cylinder point at t = 1/3 is past the end |
| Intersect.HitCapsuleAsWrittenMisplacesPoint | src/vector/Intersect.h:95-98 | for that ray both versions report t = 0.2, but as written the point is the ray's point at -0.2, not at 0.2 |
| Intersect.HitCapsule | src/vector/Intersect.h:66-108 | corrected caps: a zero axis or A = 0 gives the NaN outcome and nothing else does; otherwise no hit when the discriminant is negative; on a hit t is in [0, 1] and the point is on the ray at t |
| Intersect.HitCapsuleCaps | src/vector/Intersect.h:95-98 | past the end, the capsule test is the sphere test against {end, r}; not past the end but before the start, against {start, r}: `hitSphere` as written for HitCapsuleAsWritten, the corrected one for HitCapsule |
| Intersect.RejectLinear | src/vector/Intersect.h:74-79 | for a non-zero axis, rejection is linear, so rejecting the ray point u + t v gives reject(u) + t·reject(v) |
| Intersect.HitCapsuleCylinderSurface | src/vector/Intersect.h:92-104 | with a true sqrt, a non-zero axis and A ≠ 0, a hit whose cylinder point is neither past the end nor before the start is that point, and it lies at distance r from the axis |
| Intersect.CylinderRootOnSurface | src/vector/Intersect.h:74-90 | for a non-zero axis, the ray point at every root of the cylinder quadratic lies at distance r from the axis |
| Intersect.CylinderNormalPerpendicular | src/vector/Intersect.h:105-106 | for a non-zero axis, the cylinder normal, a normalised rejection, is orthogonal to the axis |
| Intersect.CylinderNormalFacing | src/vector/Intersect.h:105-106 | the cylinder normal is a unit vector along the rejection of hitPoint - start when t0 ≥ 0, and along that of start - hitPoint otherwise |
| LegacyIntersect.Solve | Intersect.h:66-104 | no hit when Dsqr exceeds r² or when hitDen is 0; a side hit has t in [0, 1], lies on the ray and between the caps; cap cases go to the sphere at `end` or `start` |
| LegacyIntersect.SideNormalAsWritten | Intersect.h:106-110 | as written, the side normal is the normalised rejection of the absolute hit point from the axis |
| LegacyIntersect.HitCapsuleAsWritten | Intersect.h:66-113 | as written: the same misses and t range, and on the side path the point is on the ray |
| LegacyIntersect.HitCapsule | Intersect.h:66-113 | the same misses; a side hit reports the solved point and t, with the normal of hitPoint - start |
| LegacyIntersect.HitCapsuleCaps | Intersect.h:94-101 | a side point past the end gives the sphere test at `end`; one before the start (and not past the end) the test at `start`: `hitSphere` as written for HitCapsuleAsWritten, the corrected one for HitCapsule |
| LegacyIntersect.SideNormalIsIntrinsic | Intersect.h:106-110 | the corrected side normal is orthogonal to the axis and unchanged when the capsule and the point move together |
| LegacyIntersect.SplitPlaneOrthogonal | Intersect.h:74 | `splitPlane` is orthogonal to both the ray direction and the axis |
| LegacyIntersect.HitPlaneOrthogonal | Intersect.h:85 | `hitPlane` is orthogonal to the axis and to `splitPlane` |
| LegacyIntersect.HitDenIsSplitLength | Intersect.h:74-88 | `hitDen` is minus the squared length of `splitPlane`, so never positive |
| LegacyIntersect.DsqrNonNegative | Intersect.h:74-79 | `Dsqr` is never negative, and is 0 when `splitPlane` is zero |
| LegacyIntersect.ParallelRayMisses | Intersect.h:74-92 | a ray parallel to the axis has a zero `splitPlane` and misses |
| LegacyIntersect.SideNormalAsWrittenDependsOnOrigin | Intersect.h:106-110 | as written, moving the capsule and its hit point together off the z axis changes the normal |
| Fixtures.FixturesAreRowMajor | src/test/Conformance.cpp:141-244 | the matrix fixtures are the row-major 16-float constructions of the test |
| Fixtures.PermutationMaps | src/test/Conformance.cpp:176-204 | the permutation maps x to (x.w, x.z, x.x, x.y), and the identity maps x to itself |
| Fixtures.SelectsColumns | src/vector/Reference.h:182-192 | M times a unit vector selects a column of M |
| Fixtures.SumOfFixtures | src/test/Conformance.cpp:39-44 | (1,2,3,4) + (2,3,4,5) = (3,5,7,9) |
| Fixtures.DifferenceOfFixtures | src/test/Conformance.cpp:39-48 | (1,2,3,4) - (2,3,4,5) = (-1,-1,-1,-1) |
| Fixtures.HalfOfAscending | src/test/Conformance.cpp:39-52 | (1,2,3,4) × 0.5 = (0.5,1,1.5,2) |
| Fixtures.AscendingOverHalf | src/test/Conformance.cpp:39-56 | (1,2,3,4) ÷ 0.5 = (2,4,6,8) |
| Fixtures.DotOfFixtures | src/test/Conformance.cpp:107-110 | (1,2,3,4)·(2,3,4,5) = 40 |
| Fixtures.AscendingLengthSqr | src/test/Conformance.cpp:77-80 | \|(1,2,3,4)\|² = 30 |
| Fixtures.ShiftedLengthSqr | src/test/Conformance.cpp:78-92 | \|(2,3,4,5)\|² = 54 |
| Fixtures.CrossOfAxes | src/test/Conformance.cpp:122-125 | (2,0,0,0) × (0,3,0,0) = (0,0,6,0) |
| Fixtures.CrossOfAxesSwapped | src/test/Conformance.cpp:122-129 | (0,3,0,0) × (2,0,0,0) = (0,0,-6,0), so the two orders cancel as the test expects |
| Fixtures.CountingDoubled | src/test/Conformance.cpp:141-159 | A·2 = B for the two matrix fixtures |
| Fixtures.DoubledHalved | src/test/Conformance.cpp:148-165 | B/2 = A |
| Fixtures.CountingTimesPermutation | src/test/Conformance.cpp:225-248 | A times the permutation is the product fixture |
| Conformance.ComparisonTest | src/test/Conformance.cpp:10-32 | the comparison test passes on every backend except the root SSE header with `!=` as written |
| Conformance.AlgebraicTest | src/test/Conformance.cpp:34-70 | the algebraic test passes on every backend |
| Conformance.FastSquaredLength | src/test/Conformance.cpp:92-96 | on an SSE backend, \|NormalizeFast(2,3,4,5)\|² is rsqrt(54)²·54 |
| Conformance.LengthTestPasses | src/test/Conformance.cpp:72-100 | with a true sqrt and an rsqrt of relative error e, the length test passes at any tolerance that contains (1 ± e)² |
| Conformance.LengthTestFromChecks | src/test/Conformance.cpp:72-100 | the length test passes when its four checks hold (the normalised check at 1e-6 is met exactly) |
| Conformance.LengthTestFailsFast | src/test/Conformance.cpp:92-96 | the length test fails when \|NormalizeFast(b)\|² exceeds 1 + tolerance |
| Conformance.FastWithinTolerance | src/test/Conformance.cpp:92-96 | an rsqrt within e keeps \|NormalizeFast(b)\|² within (1 ± e)² |
| Conformance.LengthChecks | src/test/Conformance.cpp:80-85 | on every backend, LengthSqr(1,2,3,4) = 30 and Length = sqrt(30) |
| Conformance.NormalizeCheck | src/test/Conformance.cpp:87-90 | on every backend with a true sqrt, \|Normalize(1,2,3,4)\|² = 1 |
| Conformance.ScalarFastCheck | src/test/Conformance.cpp:92-96 | on the scalar backends \|NormalizeFast(2,3,4,5)\|² = 1 |
| Conformance.SkewedWithin | src/test/Conformance.cpp:92-96 | the skewed rsqrt (1 + e)/sqrt is within relative error e |
| Conformance.DocumentedErrorFailsAsWritten | src/test/Conformance.cpp:92-96 | an rsqrt at the documented error 1.5·2⁻¹² fails the length test at the tolerance 3e-4 as written |
| Conformance.SkewedAtTheBound | src/test/Conformance.cpp:92-96 | a true square root skewed by e meets the error bound and reaches (1 + e)² at 54 |
| Conformance.AsWrittenAcceptsHalfTheError | src/test/Conformance.cpp:92-96 | an rsqrt within 2⁻¹³ passes the length test at 3e-4 |
| Conformance.CorrectedAcceptsDocumentedError | src/test/Conformance.cpp:92-96 | any rsqrt within 1.5·2⁻¹² passes the length test at the corrected tolerance 7.5e-4 |
| Conformance.DotProductTest | src/test/Conformance.cpp:102-115 | the dot product test passes on every backend |
| Conformance.CrossProductTest | src/test/Conformance.cpp:117-134 | the cross product test passes on every backend |
| Conformance.ScalesFixture | src/test/Conformance.cpp:155-165 | on every backend with matrices, A·2 = B and B/2 = A |
| Conformance.MapsFixture | src/test/Conformance.cpp:176-204 | on every backend with matrices, I·x = x and the permutation gives (4,3,1,2) |
| Conformance.AdditiveOnFixture | src/test/Conformance.cpp:206-208 | on every backend with matrices, A·x + A·y = A·(x + y) for the fixtures |
| Conformance.HomogeneousOnFixture | src/test/Conformance.cpp:210-214 | on every backend with matrices, A·(x·z) = (A·x)·z for the fixtures |
| Conformance.MultipliesFixture | src/test/Conformance.cpp:225-248 | on every backend with matrices, A·B = C for the fixtures |
| Conformance.ComposesOnFixture | src/test/Conformance.cpp:250-256 | on every backend with matrices, (B·A)·x = B·(A·x) |
| Conformance.MatrixScalarProductTest | src/test/Conformance.cpp:136-169 | the matrix-scalar test passes on every backend with matrices |
| Conformance.IdentityCheck | src/test/Conformance.cpp:176-189 | the identity check of the matrix-vector test does not fail |
| Conformance.PermutationCheck | src/test/Conformance.cpp:191-204 | the permutation check does not fail |
| Conformance.AdditiveCheck | src/test/Conformance.cpp:206-208 | the additivity check does not fail |
| Conformance.HomogeneousCheck | src/test/Conformance.cpp:210-214 | the homogeneity check does not fail |
| Conformance.MatrixVectorProductTest | src/test/Conformance.cpp:171-218 | the matrix-vector test passes on every backend with matrices |
| Conformance.ProductCheck | src/test/Conformance.cpp:225-248 | the product check of the matrix-matrix test does not fail |
| Conformance.CompositionCheck | src/test/Conformance.cpp:250-256 | the composition check does not fail |
| Conformance.MatrixMatrixProductTest | src/test/Conformance.cpp:220-260 | the matrix-matrix test passes on every backend with matrices |
| Conformance.Run | src/test/Conformance.cpp:262-278 | one test functor on one backend returns its expected verdict: pass, except the length test, which passes exactly when its checks hold at the corrected tolerance |
| Conformance.EveryTestPasses | src/test/Conformance.cpp:262-298 | with a true sqrt and an rsqrt within 1.5·2⁻¹², every test passes on `default`, `aligned` and `intrinsic` |
| Conformance.TestFunc | src/test/Conformance.cpp:262-278 | `testFunc` returns true exactly when the test passes on all three backends |
| Conformance.TestMatrixProduct | src/test/Conformance.cpp:300-305 | the three matrix tests pass |
| LegacyTests.ComparisonTest | Test.cpp:10-32 | the older comparison test passes on every backend, the defective root `!=` included |
| LegacyTests.ComparisonMissesNotEqualDefect | Test.cpp:15-30 | the older test passes the root SSE header as written, while the newer comparison test rejects it |
| LegacyTests.AlgebraicTest | Test.cpp:34-61 | the older algebraic test passes on every backend |
| LegacyTests.Run | Test.cpp:129-145 | one older test on one backend returns its expected verdict |
| LegacyTests.EveryTestPasses | Test.cpp:129-165 | with a true sqrt and an rsqrt within 1.5·2⁻¹², every older test passes on `default`, `aligned` and the root SSE header |
| LegacyTests.TestFunc | Test.cpp:129-145 | the older `testFunc` returns true exactly when the test passes on all three backends |
| Scenes.Candidates | src/trace/Scene.h:75-78 | candidate i is `hitSphere` against sphere i, tagged with that sphere's material |
| Scenes.Select | src/trace/Scene.h:74-85 | a selected hit has t < 1 |
| Scenes.SelectFound | src/trace/Scene.h:74-85 | a hit is selected exactly when some candidate hits with t < 1 |
| Scenes.SelectIsMinimal | src/trace/Scene.h:74-83 | the selected t is no greater than any candidate's t |
| Scenes.SelectIsFirst | src/trace/Scene.h:74-83 | the selected hit is a candidate, and every earlier candidate has a strictly greater t, so the first wins ties |
| Scenes.NearestHit | src/trace/Scene.h:72-86 | the nearest hit exists exactly when some sphere is hit with t < 1; it has the least t, is the first sphere with that t, and carries that sphere's material |
| Scenes.Trace | src/trace/Scene.h:72-86 | the loop over the spheres finds the nearest hit and returns true exactly when there is one |
| Scenes.ShadeLight | src/trace/Scene.h:146-166 | a light behind the surface ((light - point)·normal ≤ 0) contributes black |
| Scenes.IndirectValue | src/trace/Scene.h:89-115 | when the reflected ray hits nothing, the indirect contribution is black |
| Scenes.DirectSkipsOccluded | src/trace/Scene.h:123-131 | an occluded light adds nothing to the direct sum, wherever it sits in the list |
| Scenes.BouncesBounded | src/trace/Scene.h:93-136 | the number of nested reflections is at most the initial `hit_count` |
| Scenes.ShadeWithoutBounce | src/trace/Scene.h:134-142 | with `hit_count` ≤ 0, or no reflected hit, the shade is the direct sum alone |
| Scenes.DirectStep | src/trace/Scene.h:123-131 | each light adds its `ShadeLight` to the running colour unless it is occluded |
| Scenes.Shade | src/trace/Scene.h:118-143 | the light loop with `+=` and the bounded reflection compute the specified shade |
| Scenes.ShadeIndirect | src/trace/Scene.h:89-115 | the indirect step computes the specified reflected contribution |
| Scenes.TraceColorValue | src/trace/Scene.h:51-62 | a colour is produced exactly when the ray hits something |
| Scenes.TraceColor | src/trace/Scene.h:51-62 | `TraceColor` writes the shaded colour and returns true on a hit; otherwise it returns false and leaves the colour untouched |
| Scenes.Nearest | src/trace/Scene.h:72-86 | the nearest hit, when there is one, has t in [0, 1) |
| Scenes.OccludedExactly | src/trace/Scene.h:123-128 | a light is occluded exactly when some sphere is hit with t < 1 on the segment from the point to the light |
| Scenes.DirectAllOccluded | src/trace/Scene.h:123-131 | when every light is occluded, the direct sum is black |
| Scenes.MirrorReflects | src/trace/Scene.h:136-137 | the bounce direction `normal.Reflect(-view)` has the view's component along the normal and the view's length |
| Scenes.ReflectanceOfBlack | src/trace/Scene.h:156-165 | a black light is reflected as black, whatever the BRDF terms |
| Scenes.FalloffPositive | src/trace/Scene.h:160 | a light in front of the surface, away from the point, with positive intensity gives a positive falloff |
| Tracing.PixelFactor | src/trace/Trace.h:15-17 | the pixel-centre factor 1 - 2(i + 0.5)/n lies strictly between -1 and 1 |
| Tracing.StartOnSegment | src/trace/Trace.h:11-21 | with 0 < near ≤ far, the ray start lies on the segment from the origin to the ray end |
| Tracing.PixelColor | src/trace/Trace.h:10-25 | a pixel whose ray hits nothing gets the default colour (.1, .1, .1, 1) |
| Tracing.TraceView | src/trace/Trace.h:7-28 | after the nested loops, every pixel holds its own traced colour or the default |
| Tracing.TracePixel | src/trace/Trace.h:15-25 | one iteration writes pixel (ii, jj) and no other |
| Tracing.FixedScene | src/trace/Trace.h:32-60 | the scene has exactly two lights of intensity 10 and two spheres of positive radius |
| Tracing.FixedView | src/trace/Trace.h:62-67 | the view has 0 < near ≤ far |
| Tracing.Trace | src/trace/Trace.h:30-77 | the image has the requested size and holds the traced view of the fixed scene; it is saved exactly when a file name is given |
| Tracing.FrustumKeepsFrame | src/trace/Frustum.h:7-18 | the stored forward vector is zfar times as long, and scaled left and up stay orthogonal to it when they were |
| Tracing.PixelFactorSymmetric | src/trace/Trace.h:15-17 | mirrored pixels n - 1 - i and i get opposite factors |
| Tracing.PixelRayInView | src/trace/Trace.h:15-21 | every pixel's ray ends at forward + a·up + b·left from the eye with -1 < a, b < 1 |
| Images.Truncate | src/trace/Image.h:13 | `int(x)` truncates toward zero |
| Images.ClampByte | src/trace/Image.h:11-14 | a non-negative input gives min(255, ⌊255c⌋), an input ≥ 1 gives 255, and a negative input wraps modulo 256 |
| Images.ClampByteMonotone | src/trace/Image.h:11-14 | `ClampByte` is monotone on non-negative inputs |
| Images.EncodeGamma | src/trace/Image.h:16-32 | below 0 it gives 0; below 0.0031308 it is `ClampByte(12.92c)`, at most 10; below 1 it is `ClampByte(1.055·c^0.41666 - 0.055)`; from 1 on it gives 255 |
| Images.EncodeGammaMonotone | src/trace/Image.h:16-32 | with an increasing `pow`, the encoding is monotone |
| Images.PixelBytes | src/trace/Image.h:66-68 | a pixel packs to three bytes: the encoded blue, green and red channels |
| Images.PackedLayout | src/trace/Image.h:63-70 | the packed buffer has 3·n bytes, and bytes 3p..3p+2 are pixel p's |
| Images.PixelIndex | src/trace/Image.h:53-59 | pixel (ii, jj) is at index ii·width + jj, inside the buffer |
| Images.PixelOrder | src/trace/Image.h:64-65 | the row-major loop visits pixel indices in increasing order |
| Images.Image.constructor | src/trace/Image.h:39-43 | a new image has width·height black pixels |
| Images.Image.RowStart | src/trace/Image.h:53-59 | row r starts at index r·width and its row fits in the buffer |
| Images.Image.Set | src/trace/Image.h:53-55 | writing pixel (ii, jj) changes that pixel only |
| Images.Image.Save | src/trace/Image.h:61-75 | `Save` returns what `WriteBitmapBGR` returns for the packed pixels |
| Images.Image.Pack | src/trace/Image.h:63-70 | the nested loops fill the byte buffer with the BGR packing of every pixel |
| Images.Image.PackRow | src/trace/Image.h:65-69 | one row of the inner loop extends the packed prefix by that row |
| Images.PackPixel | src/trace/Image.h:66-68 | writing one pixel's three bytes extends the packed prefix and leaves the later bytes alone |
| Bitmaps.Dword | src/trace/Image.cpp:13-14 | a `DWORD` cast is the value modulo 2³², unchanged when in range |
| Bitmaps.Long | src/trace/Image.cpp:26-27 | a `LONG` cast is in the 32-bit signed range, unchanged when in range, with the same bits |
| Bitmaps.DwordDifference | src/trace/Image.cpp:21 | bfOffBits = file_size - data_size is the header size even when the sizes wrap |
| Bitmaps.FileHeaderOf | src/trace/Image.cpp:16-22 | bfType is 'BM', bfSize is the header sizes plus the pixel bytes, the reserved fields are 0, and bfOffBits is the header size |
| Bitmaps.InfoHeaderAsWritten | src/trace/Image.cpp:24-36 | as written, biPlanes is 3, which a valid header does not allow |
| Bitmaps.InfoHeaderOf | src/trace/Image.cpp:24-36 | the header size is 40, 24 bits per pixel, BI_RGB, biSizeImage is the pixel bytes, biWidth is the width, and biHeight is -height (top-down rows) |
| Bitmaps.PlanesAreTheOnlyDifference | src/trace/Image.cpp:28 | the header as written differs from a valid one in biPlanes alone |
| Bitmaps.Le16 | src/trace/Image.cpp:56-57 | a 16-bit field is written as two little-endian bytes |
| Bitmaps.Le32 | src/trace/Image.cpp:56-57 | a 32-bit field is written as four little-endian bytes |
| Bitmaps.FileHeaderBytes | src/trace/Image.cpp:56 | the file header is 14 bytes |
| Bitmaps.InfoHeaderBytes | src/trace/Image.cpp:57 | the info header is 40 bytes |
| Bitmaps.ContentsLayout | src/trace/Image.cpp:54-60 | the file is the two headers followed by the pixels at bfOffBits, and bfSize is its length when that fits in 32 bits |
| Bitmaps.ContentsDifferInPlanes | src/trace/Image.cpp:28 | the file as written and the corrected file have the same length and differ only at byte 26, biPlanes: 3 against 1 |
| Bitmaps.LastIndex | src/trace/Image.cpp:42-43 | `strrchr` finds the last occurrence of a character, or -1 |
| Bitmaps.LastSeparator | src/trace/Image.cpp:42-44 | the later of the last '/' and the last '\\' is a separator with none after it |
| Bitmaps.DirectoriesCreated | src/trace/Image.cpp:42-48 | no directory is created when the name has no separator; otherwise the directory is the prefix before the last separator |
| Bitmaps.DirectoryBuffer | src/trace/Image.cpp:45-46 | the copied buffer is the prefix followed by a NUL at the separator's position |
| Bitmaps.WriteBitmapBGR | src/trace/Image.cpp:7-69 | on Windows it creates the prefix directory, writes the bitmap file and returns true; elsewhere it writes nothing and returns false |
| Features.FeatureBitsDistinct | src/platform/Features.h:3-19 | each `_HAS_*` tests exactly its own `_F_*` bit, and the default `_F_BITS` has them all |
| Features.FeatureBitsAreShifts | src/platform/Features.h:3-12 | the ten feature bits are 1<<0 .. 1<<9 |
| Features.SingleBits | src/platform/Features.h:3-12 | distinct single bits do not overlap |
| Features.FeatureListBits | src/platform/Features.cpp:29-40 | the probe's table uses the same ten bits in order |
| Features.SetInsert | src/platform/Features.cpp:23-25 | inserting into the `std::set` keeps it strictly ordered by feature bits and adds only the new feature |
| Features.SetFromList | src/platform/Features.cpp:29-40 | the set built from the list is strictly ordered |
| Features.OrderedListIsItsSet | src/platform/Features.cpp:23-40 | a strictly ordered list is its own set |
| Features.FeatureSetIsTable | src/platform/Features.cpp:29-40 | the feature set holds all ten entries in table order, none dropped |
| Features.CheckFeature | src/platform/Features.cpp:44-71 | on Windows, a feature is supported exactly when its cpuid function is available and its register bits are set |
| Features.UpperChar | src/platform/Features.cpp:77-80 | `toupper` maps each of a..z to its capital (`c - 'a' + 'A'`) and leaves other characters alone |
| Features.ToUpper | src/platform/Features.cpp:74-82 | `to_upper` returns a string of the same length with each character upper-cased |
| Features.UpperString | src/platform/Features.cpp:74-82 | the upper-cased copy has the same length, character by character |
| Features.SupportedNames | src/platform/Features.cpp:88-95 | at most one name is printed per feature |
| Features.BitOr | src/platform/Features.cpp:94 | OR with 0 leaves the other operand |
| Features.BitOrNonZero | src/platform/Features.cpp:94 | OR with a non-zero value is non-zero |
| Features.DetectFeatures | src/platform/Features.cpp:85-98 | `main` returns the OR of the supported features' bits and prints their upper-case names separated by ", " |
| Features.DetectAdvance | src/platform/Features.cpp:88-96 | one loop iteration keeps the running bits and the printed text equal to those of the features seen so far, with bits non-zero exactly when a name has been printed |
| Features.DetectStep | src/platform/Features.cpp:88-96 | each feature in turn adds its name and bits exactly when it is supported |
| Features.JoinCommaSnoc | src/platform/Features.cpp:90-93 | ", " goes before every name but the first |
| Features.TableBitsNonZero | src/platform/Features.cpp:29-40 | every feature in the table has non-zero bits, so `bits != 0` tells whether a name was printed |
| Features.SupportedBitsZero | src/platform/Features.cpp:88-96 | the or-ed bits are 0 exactly when no feature of the list is supported |
| Features.JoinCommaLength | src/platform/Features.cpp:90-93 | the joined names are the names plus two characters per separator, and no names give "" |
| Benchmarks.Unpack | src/test/Performance.cpp:19-27 | a record of `size` floats unpacks into arguments of that functor's shape |
| Benchmarks.Flatten | src/test/Performance.cpp:12-27 | arguments of a functor's shape flatten to exactly its declared `size` floats |
| Benchmarks.FlattenUnpack | src/test/Performance.cpp:19-27 | unpacking a record loses no float |
| Benchmarks.UnpackFlatten | src/test/Performance.cpp:19-27 | unpacking gives back the arguments a record was made from |
| Benchmarks.SliceInBounds | src/test/Performance.cpp:20-25 | record ii < data.size()/size ends inside the data |
| Benchmarks.Inputs | src/test/Performance.cpp:20-25 | the constructor makes data.size()/size records, each of the functor's shape |
| Benchmarks.Op | src/test/Performance.cpp:437-484 | on its backend, the intersection functors write the hit on a hit and leave the output untouched on a miss, and cross outputs have w = 0 |
| Benchmarks.OpIsReference | src/test/Performance.cpp:9-311 | on every backend the add, sub, scale, divide (by non-zero s), length, normalise, dot and cross functors write the reference result |
| Benchmarks.LengthFast | src/math/Intrinsic.h:325-328 | `LengthFast` is the exact root on `default` and `aligned`, and q·rsqrt(q) of the squared length q on `intrinsic` |
| Benchmarks.OpLengthFast | src/test/Performance.cpp:166-191 | the `vectorLengthFast` functor writes the exact root on the scalar backends and q·rsqrt(q) on `intrinsic` |
| Benchmarks.OpNormalizeFast | src/test/Performance.cpp:220-245 | the `vectorNormalizeFast` functor writes `Normalize` on the scalar backends and v scaled by rsqrt of its squared length on `intrinsic` (src/math/Intrinsic.h:338-340) |
| Benchmarks.Project | src/math/Intrinsic.h:367-371 | `Project` on the functor's backend is the reference projection onto a non-zero direction, and on the scalar backends onto any |
| Benchmarks.Reject | src/math/Intrinsic.h:374-377 | `Reject` on the functor's backend is the reference rejection from a non-zero direction, and on the scalar backends from any |
| Benchmarks.Reflect | src/math/Intrinsic.h:380-390 | `Reflect` on the functor's backend, with the branch the host selects, is the reference reflection across a non-zero direction, and on the scalar backends across any |
| Benchmarks.OpDirections | src/test/Performance.cpp:313-410 | the project, reject and reflect functors write the reference result for a non-zero direction, and for any direction on the scalar backends |
| Benchmarks.OpIdempotent | src/test/Performance.cpp:29-36 | applying a functor twice to the same input gives what applying it once does |
| Benchmarks.Initial | src/test/Performance.cpp:26 | after `_output.resize`, a `Hit` is zero (an aggregate, src/vector/Intersect.h:23-27) and so is a scalar backend's `float` Scalar, while an intrinsic `Scalar` (src/math/Intrinsic.h:45) and every `Vector` (src/math/Intrinsic.h:271) keep what the memory held |
| Benchmarks.InitialHasOpShape | src/test/Performance.cpp:19-36 | the output as `resize` leaves it has the shape the functor writes |
| Benchmarks.Functor.constructor | src/test/Performance.cpp:19-27 | on its backend, the input and output have data.size()/size elements, the inputs are the records, and each output is what `resize` leaves: zero for a hit or a scalar backend's float, the memory's contents for a vector or an intrinsic Scalar |
| Benchmarks.Functor.Run | src/test/Performance.cpp:29-36 | `operator()(n)`, with n at most the input count, sets output ii to op(input ii) for ii < n and leaves the rest |
| Benchmarks.ReadRecord | src/test/Performance.cpp:22-25 | reading record ii advances the cursor by `size` and fills element ii only |
| Benchmarks.RanTwice | src/test/Performance.cpp:29-36 | a second timed run leaves the outputs as the first left them |
| Benchmarks.Elapsed | src/test/Timer.h:27-31 | a timed run's microseconds are non-negative and 1e6·(stop - start)/freq when the counter did not go backwards |
| Benchmarks.TimeRun | src/test/Performance.cpp:490-498 | `testPerformanceSingle` runs the functor and returns the elapsed microseconds of its reading |
| Benchmarks.SortRow | src/test/Performance.cpp:523-526 | sorting a timing row leaves it sorted and a permutation of itself |
| Benchmarks.InsertLast | src/test/Performance.cpp:523-526 | inserting the next element keeps the prefix sorted and the row a permutation |
| Benchmarks.Swapped | src/test/Performance.cpp:523-526 | swapping two neighbours is a permutation that changes only them |
| Benchmarks.Measured | src/test/Performance.cpp:516-521 | each backend's row holds 16 measured timings |
| Benchmarks.Percent | src/test/Performance.cpp:534-538 | a reported ratio is 100·a/b |
| Benchmarks.TestPerformance | src/test/Performance.cpp:500-539 | `testPerformance` reports the median (index 8 after sorting) of each backend's 16 measured timings, and the two ratios |
| Benchmarks.Measure | src/test/Performance.cpp:503-521 | the warm-up and measured passes fill three distinct rows with the measured timings |
| Benchmarks.Medians | src/test/Performance.cpp:523-531 | sorting the rows and taking index 8 gives each row's median |
| Benchmarks.MeasureRows | src/test/Performance.cpp:516-521 | the measured loop fills each row with that backend's timings |
| Benchmarks.MeasuredRound | src/test/Performance.cpp:517-521 | one measured round writes entry ii of each row and no other |
| Benchmarks.Median | src/test/Performance.cpp:523-531 | sorting a row of 16 and taking index 8 gives its median |
| LegacyBenchmarks.FloatsRead | Performance.cpp:9-61 | one sphere iteration reads 10 floats and one capsule iteration reads 13 |
| LegacyBenchmarks.DeclaredSizeAsWritten | Performance.cpp:12-38 | as written, the sphere functor declares 10 and the capsule functor declares 11, fewer than it reads |
| LegacyBenchmarks.DeclaredSize | Performance.cpp:12-38 | the intended `size` is the floats an iteration reads |
| LegacyBenchmarks.RecordsFit | Performance.cpp:14-32 | n records of `size` floats fit in `count` floats exactly when n·size ≤ count |
| LegacyBenchmarks.DeclaredSizeAsWrittenOverruns | Performance.cpp:38-54 | for any iteration count n ≥ 1, 13 floats per iteration exceed the declared 11, and n iterations do not fit in data of 11·n floats |
| LegacyBenchmarks.DeclaredSizeSuffices | Performance.cpp:38-54 | n iterations always fit in data of n·size floats when size is the floats an iteration reads |
| LegacyBenchmarks.Test | Performance.cpp:28-58 | each iteration calls `hitSphere` or `hitCapsule` on the record it read |
| LegacyBenchmarks.Stream | Performance.cpp:14-60 | the streaming loop from data[0] gives, for every ii below the iteration count, the test on record ii |
| LegacyBenchmarks.TimeRun | Performance.cpp:63-71 | `testPerformanceSingle` returns the elapsed microseconds of its reading |
| LegacyBenchmarks.TestPerformance | Performance.cpp:73-108 | `testPerformance` reports the median of each backend's 16 timings, and the two ratios |
| LegacyBenchmarks.MeasureRows | Performance.cpp:85-90 | the measured loop fills each row with that backend's timings |
| LegacyBenchmarks.MeasuredRound | Performance.cpp:86-90 | one measured round writes entry ii of each row and no other |
| Timers.Clamped | src/test/Timer.h:20 | the clamped interval max(0, stop - start) is non-negative, at least the difference, and equal to it when the clock did not go backwards |
| Timers.Timer.constructor | src/test/Timer.h:10-11 | a new timer has accumulated 0 (also src/test/Performance.h:11-12 and Performance.h:11-12) |
| Timers.Timer.Start | src/test/Timer.h:13-15 | `Start` records the counter and leaves the accumulated time |
| Timers.Timer.Stop | src/test/Timer.h:17-21 | `Stop` adds the clamped interval, so the accumulated time never decreases (also src/test/Performance.h:18-22 and Performance.h:18-22) |
| Timers.Timer.Reset | src/test/Timer.h:23-25 | `Reset` zeroes the accumulated time |
| Timers.Timer.Microseconds | src/test/Timer.h:27-31 | `Microseconds` is 1e6·accum/freq, non-negative for a valid timer |
| Timers.Interval | src/test/Timer.h:52-62 | both branches of POSIX `Stop` add exactly the nanosecond difference, negative when the clock went backwards |
| Timers.PosixTimer.constructor | src/test/Timer.h:45-46 | a new POSIX timer has accumulated 0 |
| Timers.PosixTimer.Start | src/test/Timer.h:48-50 | `Start` records the time and leaves the accumulated time |
| Timers.PosixTimer.Stop | src/test/Timer.h:52-62 | `Stop` adds the nanosecond difference without clamping |
| Timers.PosixTimer.Reset | src/test/Timer.h:64-66 | `Reset` zeroes the accumulated time |
| Timers.PosixTimer.Microseconds | src/test/Timer.h:68-70 | `Microseconds` is accum·1e-3, non-negative exactly when the accumulated time is |
| Timers.PosixStopCanDecrease | src/test/Timer.h:52-62 | a POSIX stop half a second before the start subtracts from the total, where the Windows timer would add 0 |

## Left out

- Floating point: lanes, Scalars and colours are real numbers. Rounding,
  NaN and infinity, unordered comparisons (section 5.11 of IEEE 754-2019),
  and bit-for-bit agreement between backends are not modelled. Every
  equivalence between backends holds over the reals only. In floats, the
  SSE `_vec_dp_ps` associates its lanes in two different orders, and the
  root header divides through a reciprocal. Division by zero, which gives
  infinity or NaN in floats, is `Lanes.Quot`'s placeholder value 0.
- Where the source reaches a zero divisor on a branch, the model decides
  that branch explicitly. `Intersect.HitSphere` and
  `Intersect.HitSphereAsWritten` give no hit when A = 0.
  `Intersect.HitCapsule` and `Intersect.HitCapsuleAsWritten` give the
  NaN outcome for a zero axis or A = 0. `LegacyIntersect.Solve` misses for
  a ray parallel to the axis, as the source does.
- Elsewhere the placeholder 0 does reach results, where floats would give
  infinity or NaN: `Normalize` of the zero vector, `Project`/`Reject` on a
  zero axis, `Scenes.Falloff` with the light at the point, `PixelRay` with
  far = 0, `DivPs` with a zero lane, and `Benchmarks.Percent` with b = 0.
  A property stated without a non-zero divisor holds of the placeholder,
  not of the floats.
- `sqrt`, `rsqrt`, `pow`, `exp`, `sin` and the BRDF terms `Kd`/`Ks` are
  parameters, not definitions. Only what a lemma requires of them is
  assumed: an exact root, an rsqrt within the error the SSE instruction
  reference gives (1.5·2⁻¹²), or an increasing `pow`.
- The BRDFs of src/trace/Light.h and src/trace/Light.cpp are not part of
  this model. Neither are the drivers (src/test/main.cpp, main.cpp,
  src/trace/Trace.cpp) or src/platform/Platform.h.
- Frustum.h is modelled by its constructor (`Tracing.FrustumOf`) and the
  fields `TraceView` reads. Its `sin` is a parameter.
- OS and hardware calls are inputs: the performance counter and its
  frequency, `clock_gettime`, `__cpuid`/`__builtin_cpu_supports`, and the
  file and directory calls. Printed output is not modelled.
- The file calls' own results are ignored by `WriteBitmapBGR`, so the model
  records the directory and the file it asks for. It does not record
  whether they succeeded.
- The `_v_shuffle_ps`/`_v_dp_ps` templates used by src/vector/Aliased.h are
  not part of this model. The aliased cross product, `Normalize`, `Project`
  and matrix products are taken to be the `Intrinsic` sequences they
  mirror.
- Intrinsic.Reflect: the non-FMA branch of src/vector/Intrinsic.h:383-386
  and src/math/Intrinsic.h:386-389 calls `_mm_set_ps1` with two arguments
  and does not compile. Its evidently intended form is
  Intrinsic.ReflectWithoutFma (see "## Findings").
- `Vector::Scale` (src/vector/Intrinsic.h:390-392) and the other Hadamard
  operators are `Lanes.Hadamard`.
- The root headers define no Matrix, so the backend with the root SSE
  header runs only the vector tests.
- Intersect.HitCapsule: the end caps call the corrected
  `Intersect.HitSphere`. The caps as written are
  `Intersect.HitCapsuleAsWritten` (see "## Findings"). The side normal is
  stated by Intersect.CylinderNormalPerpendicular and
  Intersect.CylinderNormalFacing, not by HitCapsule's own contract.
- Intersect.HitCapsuleAsWritten: for a zero axis or A = 0 the source
  computes NaN for t and returns true with a NaN record. The model gives
  the outcome `NaNHit` for exactly these inputs
  (Intersect.ParallelRayIsUnsolvable). The contents of the NaN record are
  not modelled. The same holds for Intersect.HitCapsule.
- Scenes.Candidates: uses the corrected `Intersect.HitSphere`.
  src/trace/Scene.h:78 calls math/Intersect.h's `hitSphere`, taken to be
  src/vector/Intersect.h's as written. The two agree on whether there is a
  hit and on t (Intersect.HitSphereAgreesOnT), but the version as written
  places the point and normal at t0 (see "## Findings").
- LegacyIntersect.HitCapsule: besides the corrected side normal, its end
  caps call the corrected `Intersect.HitSphere`. Intersect.h:98-101 calls
  the root header's own `hitSphere`, which places the point at t0 (line 60);
  that is `LegacyIntersect.HitCapsuleAsWritten`, and
  LegacyIntersect.HitCapsuleCaps states both.
- math/Default.h, math/Aligned.h and math/Intersect.h are not part of this
  model. src/test/Conformance.cpp:3-4, src/trace/Trace.cpp:3-4 and
  src/test/Performance.cpp:3-4 include the first two, and
  src/trace/Scene.h:9 and src/test/Performance.cpp:7 the third. They are
  taken to be:
  - the scalar backends `default` and `aligned`: the lane algebra `Lanes`,
    which the root Default.h and Aligned.h and src/vector/Reference.h share,
    with Reference.h's matrices (so `Backends.HasMatrices` holds for both);
  - the tracer's vectors: `Lanes`;
  - math/Intersect.h's `hitSphere`: src/vector/Intersect.h's.
  These headers may be later revisions (src/math/Intrinsic.h differs from
  src/vector/Intrinsic.h), so what the model states of them is stated of
  these stand-ins.
- Bitmaps.WriteBitmapBGR: the file it specifies carries biPlanes 1. The
  file as written is `Bitmaps.ContentsAsWritten`, which differs only at
  byte 26 (Bitmaps.ContentsDifferInPlanes, see "## Findings").
- Scenes.ShadeLight: only the early return for a light behind the surface
  is stated. The lit branch is a composition of the BRDF parameters.
- Tracing.PixelColor: only the miss case is stated. The hit case is
  `Scenes.TraceColorValue`.
- Features.SupportedNames: the bound states only its length. What is in it
  is stated by Features.DetectFeatures and Features.DetectStep.
- `check_feature` on gcc is the `__builtin_cpu_supports` answer, taken as a
  parameter.
- Benchmarks.Op: `vectorAdd` and `vectorSub` are the lane-wise `Lanes`
  sums on every backend. src/math/Intrinsic.h's `+` and `-` are not
  modelled instruction by instruction.
- Benchmarks.OpDirections: on `intrinsic`, with a zero direction, the
  projection divides 0 by 0. The model promises nothing there.
- Benchmarks.Functor.constructor: the memory a `Vector` or an intrinsic
  `Scalar` output holds after `resize` is a parameter. What that memory
  holds is not modelled.
- Conformance.Run and LegacyTests.Run use the corrected `NormalizeFast`
  tolerance 7.5e-4 (see "## Findings"). The tolerance as written is
  modelled by Conformance.DocumentedErrorFailsAsWritten and
  Conformance.AsWrittenAcceptsHalfTheError.
- Timers.Timer.Stop: the 64-bit counters are unbounded integers, so
  overflow of `_accum` is not modelled. The same holds for
  Timers.PosixTimer.Stop.
- src/test/Performance.h declares `testMatrixScalar`, `testMatrixVector`
  and `testMatrixMatrix`, but src/test/Performance.cpp defines none of
  them. They are not modelled.
- The root Performance.h declares `testVectorAdd`, `testVectorDot` and
  `testVectorCross`, but the root Performance.cpp defines only
  `testHitSphere` and `testHitCapsule`. The three vector benchmarks are not
  modelled.
- C strings are Dafny strings. The NUL terminator is modelled only where
  the source writes one (Bitmaps.DirectoryBuffer).

## Findings

| source | as written | input that shows it | evidently intended | confidence | as-written member | corrected member |
|---|---|---|---|---|---|---|
| Intrinsic.h:26-28 | `!=` tests `movemask(cmpneq) == 0xf`, which is true only when every lane differs | a = (1,2,3,4), b = (1,1,2,3): `a != b` and `a == b` are both false | `movemask(cmpneq) != 0`, the negation of `==` | high, not executed | LegacyIntrinsic.NotEqAsWrittenMissesPartialDifference | Intrinsic.VecNotEq |
| src/vector/Intersect.h:60 | the hit point is `start + rayVec * t0` even when t1 was selected | the ray from (0,0,0) to (2,0,0) through the unit sphere: t = 0.5 but the point is (-1,0,0) | the point at the selected t, (1,0,0) | high, not executed | Intersect.HitSphereAsWrittenMisplacesPoint | Intersect.HitSphere |
| src/vector/Intersect.h:95-98 | the end caps call `hitSphere`, which places the point at its t0 (line 60) | the capsule (0,0,0)→(0,0,1), r = 1, and the ray (0,0,1)→(3,0,5): t = 0.2, but the point is (-0.6,0,0.2) | the point at t, (0.6,0,1.8) | high, not executed | Intersect.HitCapsuleAsWrittenMisplacesPoint | Intersect.HitCapsule |
| Intersect.h:106-110 | the side normal rejects the absolute hit point from the axis | a capsule along z moved by d with d.x ≠ 0: the normal at the moved point changes | reject `hitPoint - start`, independent of where the capsule is | medium, not executed | LegacyIntersect.SideNormalAsWrittenDependsOnOrigin | LegacyIntersect.HitCapsule |
| Performance.cpp:38 | `hitCapsuleT::size` is 11, but an iteration reads 13 floats; nothing in that file reads `size` (declared at lines 12 and 38), so no caller there overruns, while the newer harness sizes its records by `size` and declares 13 (src/test/Performance.cpp:453) | any iteration count ≥ 1 with data sized by the declared 11 floats per iteration | `size = 13` | medium, not executed (main.cpp allocates 17 floats per iteration) | LegacyBenchmarks.DeclaredSizeAsWrittenOverruns | LegacyBenchmarks.DeclaredSizeSuffices |
| src/vector/Intrinsic.h:384 | without FMA, `Reflect` passes two arguments, `(2.0f, proj)`, to the one-argument `_mm_set_ps1` and does not compile (also src/math/Intrinsic.h:387) | a host with SSE and without FMA | `_mm_mul_ps(_mm_set_ps1(2.0f), proj)`, subtracted from `a` | high, not executed (the branch is ill-formed C++) | Intrinsic.ReflectMissingWithoutFma | Intrinsic.ReflectWithoutFma |
| src/trace/Image.cpp:28 | `biPlanes` is 3 | any image | 1, the only value a BITMAPINFOHEADER allows | high, not executed | Bitmaps.PlanesAreTheOnlyDifference | Bitmaps.InfoHeaderOf |
| src/test/Conformance.cpp:92-96 | `NormalizeFast` is accepted within 3e-4 of 1 | an rsqrt at the documented relative error 1.5·2⁻¹² gives \|NormalizeFast(2,3,4,5)\|² = (1 + 1.5·2⁻¹²)² > 1 + 3e-4 | a tolerance of at least (1 + 1.5·2⁻¹²)² - 1 (7.5e-4 is used) | low, not executed | Conformance.DocumentedErrorFailsAsWritten | Conformance.CorrectedAcceptsDocumentedError |
