# SimpleMatrixLibrary in Dafny

This is a model of the `maxharold.matrix` package of SimpleMatrixLibrary, a small Java library of real matrices and vectors.

- **`Vector`** wraps an array of doubles. It reads and writes single elements, scales the elements in place, and computes sums of squares, dot products and 3D cross products.
- **`Matrix`** holds a 2D grid with its row and column counts. It can be built from a 2D array, a row array, a size (zero-filled) or a list of Vectors. When construction is invalid (ragged rows, vectors of unequal dimension), every field is null; this is the failure state. Matrices support row and column access, element access, multiplication, addition, subtraction, the Hadamard product, transposition and applying the matrix to a vector.
- **`RotUtil`** rotates 2D vectors, and 3D vectors by yaw, pitch and roll. It builds a fixed rotation matrix and applies it with `transformVector`.

Layout:

- `wrappers.dfy`: `Option`, which stands for the library's `null` results.
- `algebra.dfy`: the reference mathematics the classes are proved against:
  - dot product, scaling and cross product over `seq<real>`;
  - the value of a matrix as a `Grid`;
  - transpose, entry-wise operations, product and matrix-times-vector.
- `matrices.dfy`: the classes `Vector` and `Matrix`, as imperative Dafny.
  - `Vector` keeps its backing `array<real>`.
  - `Matrix` keeps an `array2?<real>`; `null` is the failure state.
  - Every method is proved against the functions of `Algebra`, through `Vector.Elements()` and `Matrix.Value()`.
- `rot_util.dfy`: the rotation matrices and rotated points as values, with the rotation methods built on `Matrix`.

Elements are `real`. A Java `double` becomes an exact real, and `cos θ` and `sin θ` become two parameters `c` and `s`.

## Model

| member | source | states |
|---|---|---|
| Matrices.Vector.FromElements | maxharold/matrix/Vector.java:14-17 | the vector keeps the caller's array itself (no copy) and its dimension is the array's length |
| Matrices.Vector.OfDimension | maxharold/matrix/Vector.java:23-26 | a new zero vector of the given dimension |
| Matrices.Vector.Dim | maxharold/matrix/Vector.java:33-35 | the dimension is the number of elements |
| Matrices.Vector.Get | maxharold/matrix/Vector.java:59-62 | None exactly when i < 0 or i >= dim, otherwise element i |
| Matrices.Vector.SetValue | maxharold/matrix/Vector.java:69-71 | an in-range index overwrites only element i; an out-of-range index changes nothing |
| Matrices.Vector.SquaredMagnitude | maxharold/matrix/Vector.java:77-83 | the accumulated sum is the vector dotted with itself, and it is never negative |
| Matrices.Vector.Scale | maxharold/matrix/Vector.java:90-97 | every element is multiplied by the scalar in place, and the same instance is returned |
| Matrices.Vector.Dot | maxharold/matrix/Vector.java:113-122 | None exactly when the dimensions differ, otherwise the sum of the pairwise products |
| Matrices.Vector.DotWith | maxharold/matrix/Vector.java:129-132 | the instance form: the same result as Dot with this vector first |
| Matrices.Vector.CrossProduct | maxharold/matrix/Vector.java:140-144 | None exactly when either operand is not 3-dimensional (corrected guard), otherwise a new vector (a1b2-a2b1, a2b0-a0b2, a0b1-a1b0) |
| Matrices.Vector.CrossWith | maxharold/matrix/Vector.java:151-153 | the instance form of CrossProduct |
| Matrices.Vector.AngleBetweenParts | maxharold/matrix/Vector.java:161-164 | angleBetween's guard: None exactly when the dimensions differ; otherwise the dot product and the product of the squared magnitudes, which is not negative |
| Matrices.Vector.CrossProductAsWritten | maxharold/matrix/Vector.java:141-143 | crossProduct with its `&&` guard: null only when both dimensions differ from 3 |
| Matrices.Vector.CrossProductAsWrittenAcceptsFourVector | maxharold/matrix/Vector.java:141 | the guard as written accepts a 3-vector with a 4-vector and returns a value |
| Matrices.Vector.ToColumnMatrix | maxharold/matrix/Vector.java:50-52 | a new dim x 1 matrix whose entry (i, 0) is element i |
| Matrices.Matrix.RowLength | maxharold/matrix/Matrix.java:87-89 | the row count of a constructed matrix |
| Matrices.Matrix.ColLength | maxharold/matrix/Matrix.java:94-96 | the column count of a constructed matrix |
| Matrices.Matrix.IsValidMatrix | maxharold/matrix/Matrix.java:75-82 | true exactly when every row is as long as the first |
| Matrices.Matrix.FromRaw | maxharold/matrix/Matrix.java:16-27 | failure state exactly when the grid is ragged; otherwise raw.length rows, raw[0].length columns, holding raw |
| Matrices.Matrix.FromRow | maxharold/matrix/Matrix.java:33-37 | a 1 x n matrix whose only row is the array |
| Matrices.Matrix.Zero | maxharold/matrix/Matrix.java:44-48 | a zero-filled rows x cols matrix |
| Matrices.Matrix.FromVectors | maxharold/matrix/Matrix.java:54-73 | failure state exactly when some vector's dimension differs from the first one's; otherwise row i holds vector i's elements |
| Matrices.Matrix.GetRow | maxharold/matrix/Matrix.java:102-105 | None exactly when i is outside 0 .. rows-1 (corrected guard), otherwise row i; a failed matrix answers None to a negative index |
| Matrices.Matrix.GetCol | maxharold/matrix/Matrix.java:111-118 | None exactly when i is outside 0 .. cols-1 (corrected guard), otherwise a new array holding column i; a failed matrix answers None to a negative index |
| Matrices.Matrix.IndexGuardAsWritten | maxharold/matrix/Matrix.java:103 | the guard `i < 0 \|\| i > n` as written in getRow and getCol |
| Matrices.Matrix.IndexGuardAsWrittenAdmitsLength | maxharold/matrix/Matrix.java:103 | the guard as written lets i == n through, one past the last row |
| Matrices.Matrix.GetElement | maxharold/matrix/Matrix.java:125-127 | entry (row, col) of the matrix's value |
| Matrices.Matrix.SetElement | maxharold/matrix/Matrix.java:135-137 | entry (i, j) becomes val and every other entry is unchanged: the new value is the old one updated at (i, j) |
| Matrices.Matrix.DotVectors | maxharold/matrix/Matrix.java:149-156 | None exactly when the lengths differ, otherwise the dot product |
| Matrices.Matrix.Mul | maxharold/matrix/Matrix.java:164-178 | None exactly when m1.cols != m2.rows; otherwise a new m1.rows x m2.cols matrix whose entry (r, c) is row r of m1 dotted with column c of m2 |
| Matrices.Matrix.MulBy | maxharold/matrix/Matrix.java:185-187 | the instance form of Mul |
| Matrices.Matrix.Elementwise | maxharold/matrix/Matrix.java:200-211 | the shared loop of add, subtract and hadamardProduct: None exactly when the shapes differ, otherwise a new matrix combining the operands entry by entry |
| Matrices.Matrix.Add | maxharold/matrix/Matrix.java:200-211 | None exactly when the shapes differ, otherwise the entry-wise sum |
| Matrices.Matrix.Plus | maxharold/matrix/Matrix.java:218-220 | the instance form of Add |
| Matrices.Matrix.Subtract | maxharold/matrix/Matrix.java:228-239 | None exactly when the shapes differ, otherwise the entry-wise difference |
| Matrices.Matrix.Minus | maxharold/matrix/Matrix.java:246-248 | the instance form of Subtract |
| Matrices.Matrix.HadamardProduct | maxharold/matrix/Matrix.java:256-267 | None exactly when the shapes differ, otherwise the entry-wise product |
| Matrices.Matrix.HadamardWith | maxharold/matrix/Matrix.java:274-276 | the instance form of HadamardProduct |
| Matrices.Matrix.T | maxharold/matrix/Matrix.java:282-290 | a new cols x rows matrix with entry (c, r) equal to entry (r, c) of this one |
| Matrices.Matrix.TransformVector | maxharold/matrix/Matrix.java:144-147 | None exactly when v.dim != cols; otherwise a new vector of dimension rows whose component i is row i dotted with v |
| Algebra.DotSymmetric | maxharold/matrix/Vector.java:113-122 | the dot product does not depend on the order of its operands |
| Algebra.DotSelfNonNegative | maxharold/matrix/Vector.java:77-83 | a sum of squares is never negative |
| Algebra.DotScaled | maxharold/matrix/Vector.java:90-97 | scaling one operand by k scales the dot product by k |
| Algebra.SquaredMagnitudeScaled | maxharold/matrix/Vector.java:77-97 | scaling by k multiplies the squared magnitude by k*k |
| Algebra.CrossAnticommutative | maxharold/matrix/Vector.java:140-144 | swapping the operands negates the cross product |
| Algebra.CrossOrthogonal | src/src/Main.java:6-8 | the cross product is orthogonal to both operands (the demo's angles are right angles) |
| Algebra.CrossExample | src/src/Main.java:4-6 | (1, 2, 3) x (3, 2, 1) = (-4, 8, -4) |
| Algebra.TransposedAt | maxharold/matrix/Matrix.java:282-290 | entry (c, r) of the transpose is entry (r, c) of the original |
| Algebra.TransposeInvolution | maxharold/matrix/Matrix.java:282-290 | transposing twice gives back the original grid, cell for cell |
| Algebra.TransposedRow | maxharold/matrix/Vector.java:50-52 | the transpose of a one-row grid is the column grid of the same elements |
| Algebra.PointwiseCommutative | maxharold/matrix/Matrix.java:200-267 | sum and Hadamard product do not depend on the order of the operands |
| Algebra.SubtractThenAdd | maxharold/matrix/Matrix.java:200-239 | adding m2 back to m1 - m2 gives m1 |
| Algebra.RowTimesDot | maxharold/matrix/Matrix.java:164-178 | (x b) . y == x . (b y): the exchange of the two sums behind associativity |
| Algebra.ProductAssociative | maxharold/matrix/Matrix.java:164-178 | matrix multiplication is associative: (a b) c == a (b c) |
| Algebra.ProductTransposed | maxharold/matrix/Matrix.java:164-178 | the transpose of a product is the product of the transposes in reverse order |
| Algebra.TransformIsProductColumn | maxharold/matrix/Matrix.java:144-147 | the only column of a times v's column matrix is component-wise row i dotted with v |
| RotUtil.Rotation2DApplies | maxharold/matrix/RotUtil.java:15-31 | applying the rows (c, -s), (s, c) to (x, y) gives (c x - s y, s x + c y) |
| RotUtil.YawApplies | maxharold/matrix/RotUtil.java:39-46 | applying the yaw matrix to (x, y, z) gives (c x - s z, y, s x + c z) |
| RotUtil.PitchApplies | maxharold/matrix/RotUtil.java:54-62 | applying the pitch matrix gives (x, c y - s z, s y + c z) |
| RotUtil.RollApplies | maxharold/matrix/RotUtil.java:70-77 | applying the roll matrix gives (c x - s y, s x + c y, z) |
| RotUtil.ZeroAngleIsIdentity | maxharold/matrix/RotUtil.java:15-77 | with c = 1 and s = 0 every rotation returns its input unchanged |
| RotUtil.Rotate2DUndo | maxharold/matrix/RotUtil.java:28-31 | when c^2 + s^2 = 1, rotating by (c, -s) undoes rotating by (c, s) |
| RotUtil.YawUndo | maxharold/matrix/RotUtil.java:39-46 | when c^2 + s^2 = 1, yawing by (c, -s) undoes yawing by (c, s) |
| RotUtil.PitchUndo | maxharold/matrix/RotUtil.java:54-62 | when c^2 + s^2 = 1, pitching by (c, -s) undoes pitching by (c, s) |
| RotUtil.RollUndo | maxharold/matrix/RotUtil.java:70-77 | when c^2 + s^2 = 1, rolling by (c, -s) undoes rolling by (c, s) |
| RotUtil.RotationMatrix2D | maxharold/matrix/RotUtil.java:15-20 | a new 2 x 2 matrix with rows (c, -s) and (s, c) |
| RotUtil.Rotate2DVector | maxharold/matrix/RotUtil.java:28-31 | None exactly when the vector is not 2-dimensional, otherwise the rotated point (c x - s y, s x + c y) |
| RotUtil.Yaw | maxharold/matrix/RotUtil.java:39-46 | None exactly when the vector is not 3-dimensional, otherwise the yawed point, with component 1 kept |
| RotUtil.Pitch | maxharold/matrix/RotUtil.java:54-62 | None exactly when the vector is not 3-dimensional, otherwise the pitched point, with component 0 kept |
| RotUtil.Roll | maxharold/matrix/RotUtil.java:70-77 | None exactly when the vector is not 3-dimensional, otherwise the rolled point, with component 2 kept |

## Left out

- Floating point: elements are exact reals, so `double` rounding, overflow and NaN are not modelled. `Math.cos` and `Math.sin` of the angle become parameters `c` and `s`, and `Math.sqrt` and `Math.acos` are not modelled.
- Matrices.Vector.SquaredMagnitude: models `magnitude` only up to the sum of squares; the square root is left out.
- Matrices.Vector.AngleBetweenParts: models `angleBetween` up to the numerator and the squared denominator of the arc cosine's argument; the instance form `angleBetween(v2)` (Vector.java:171-173), which unboxes the same result, has no separate member.
- `unitVector` (Vector.java:103-105): it divides by `magnitude()`, a square root. Note also that it wraps the receiver's own array, so its `scale` overwrites the receiver.
- `toString` in both classes: it depends on Java's double-to-text formatting.
- `vectorToArray` (Vector.java:42-44): it returns the backing array itself; the model reads the field `vector` directly.
- Row aliasing: Java's `double[][]` is an array of row arrays, which Dafny's `array2` cannot share. The model therefore copies where Java shares:
  - `Matrix(double[][])` stores the caller's grid;
  - `Matrix(double[])` stores the caller's array as its row;
  - `Matrix(Vector...)` stores each vector's backing array;
  - `getRow` returns the matrix's own row array.
  In Java, later writes through one of these shared arrays show up in the other object; in the model they do not.
- The failure state keeps `rows` and `cols` at 0 where Java stores `null`. Almost every operation on a failed matrix unboxes that `null` and throws, so those methods require a constructed matrix. The exception is `getRow`/`getCol` with a negative index, which return null before reading the counts; GetRow and GetCol accept a failed matrix for that case and return None.
- Java runtime exceptions become preconditions:
  - construction from an empty grid or an empty list of vectors;
  - a negative size;
  - `getElement` and `setElement` out of range: the code indexes `mat` without a check, so a bad index throws;
  - operations on a failed matrix.
- There is no determinant routine in the code, so none is modelled.
- The older copies under `src/src/maxharold/matrix/` are superseded by the top-level package and are not part of this model.

## Findings

| source | as written | input that shows it | evidently intended | confidence | as-written member | corrected member |
|---|---|---|---|---|---|---|
| maxharold/matrix/Matrix.java:103, 112 | `getRow`/`getCol` reject only `i < 0 \|\| i > n` | `getRow(rows)`: the guard passes and `mat[rows]` is out of bounds | reject `i >= n`, so the valid range is 0 .. n-1 | not executed | Matrices.Matrix.IndexGuardAsWrittenAdmitsLength | Matrices.Matrix.GetRow |
| maxharold/matrix/Vector.java:141 | `crossProduct` returns null only when both dimensions differ from 3 (`&&`) | a 3-vector with a 4-vector: a value comes back, computed from the first three elements; a 3-vector with a 2-vector: `get(2)` returns null and unboxing it throws | return null when either dimension differs from 3 (`\|\|`) | not executed | Matrices.Vector.CrossProductAsWrittenAcceptsFourVector | Matrices.Vector.CrossProduct |
