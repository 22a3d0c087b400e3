/**
 * Value-level definitions of the linear algebra the library computes, and the
 * facts about them. The classes in module Matrices are proved to compute these
 * functions, and the rotation helpers are proved against them too.
 */
module Algebra {

  // ---------------------------------------------------------------------------
  // Sums of products
  // ---------------------------------------------------------------------------

  /** a[0]*b[0] + ... + a[n-1]*b[n-1], accumulated from index 0 upward as the library's loops do. */
  function DotUpTo(a: seq<real>, b: seq<real>, n: nat): real
    requires n <= |a| && n <= |b|
  {
    if n == 0 then 0.0 else DotUpTo(a, b, n - 1) + a[n - 1] * b[n - 1]
  }

  /** The dot product of two sequences of equal length. */
  function Dot(a: seq<real>, b: seq<real>): real
    requires |a| == |b|
  {
    DotUpTo(a, b, |a|)
  }

  lemma {:induction false} DotUpToSymmetric(a: seq<real>, b: seq<real>, n: nat)
    requires n <= |a| && n <= |b|
    ensures DotUpTo(a, b, n) == DotUpTo(b, a, n)
  {
    if n > 0 {
      DotUpToSymmetric(a, b, n - 1);
    }
  }

  /** The dot product does not depend on the order of its arguments. */
  lemma DotSymmetric(a: seq<real>, b: seq<real>)
    requires |a| == |b|
    ensures Dot(a, b) == Dot(b, a)
  {
    DotUpToSymmetric(a, b, |a|);
  }

  lemma {:induction false} DotUpToSelf(x: seq<real>, n: nat)
    requires n <= |x|
    ensures DotUpTo(x, x, n) >= 0.0
  {
    if n > 0 {
      DotUpToSelf(x, n - 1);
      var last := x[n - 1];
      if last > 0.0 {
        PositiveProduct(last, last);
      } else if last < 0.0 {
        NegativeProduct(last, last);
      }
      AddProduct(DotUpTo(x, x, n - 1), last, last);
    }
  }

  lemma PositiveProduct(a: real, b: real)
    requires a > 0.0 && b > 0.0
    ensures a * b > 0.0
  {
  }

  lemma NegativeProduct(a: real, b: real)
    requires a < 0.0 && b < 0.0
    ensures a * b > 0.0
  {
    assert a * b == (-a) * (-b);
  }

  lemma AddProduct(p: real, a: real, b: real)
    requires p >= 0.0 && a * b >= 0.0
    ensures p + a * b >= 0.0
  {
  }

  /** The sum of squares of a sequence is never negative. */
  lemma DotSelfNonNegative(x: seq<real>)
    ensures Dot(x, x) >= 0.0
  {
    DotUpToSelf(x, |x|);
  }

  /** Every element of x multiplied by k. */
  function Scaled(x: seq<real>, k: real): (y: seq<real>)
    ensures |y| == |x|
  {
    seq(|x|, i requires 0 <= i < |x| => x[i] * k)
  }

  lemma {:induction false} DotUpToScaled(x: seq<real>, y: seq<real>, k: real, n: nat)
    requires |x| == |y| && n <= |x|
    ensures DotUpTo(Scaled(x, k), y, n) == k * DotUpTo(x, y, n)
  {
    if n > 0 {
      DotUpToScaled(x, y, k, n - 1);
      assert Scaled(x, k)[n - 1] * y[n - 1] == k * (x[n - 1] * y[n - 1]);
    }
  }

  /** Scaling one argument of a dot product scales the result. */
  lemma DotScaled(x: seq<real>, y: seq<real>, k: real)
    requires |x| == |y|
    ensures Dot(Scaled(x, k), y) == k * Dot(x, y)
  {
    DotUpToScaled(x, y, k, |x|);
  }

  /** Scaling a vector by k scales its squared magnitude by k * k. */
  lemma SquaredMagnitudeScaled(x: seq<real>, k: real)
    ensures Dot(Scaled(x, k), Scaled(x, k)) == k * k * Dot(x, x)
  {
    DotScaled(x, Scaled(x, k), k);
    DotSymmetric(x, Scaled(x, k));
    DotScaled(x, x, k);
  }

  /** Dot products of length-2 and length-3 sequences written out. */
  lemma Dot2(a: seq<real>, b: seq<real>)
    requires |a| == 2 && |b| == 2
    ensures Dot(a, b) == a[0] * b[0] + a[1] * b[1]
  {
    assert DotUpTo(a, b, 1) == a[0] * b[0];
  }

  lemma Dot3(a: seq<real>, b: seq<real>)
    requires |a| == 3 && |b| == 3
    ensures Dot(a, b) == a[0] * b[0] + a[1] * b[1] + a[2] * b[2]
  {
    assert DotUpTo(a, b, 1) == a[0] * b[0];
    assert DotUpTo(a, b, 2) == a[0] * b[0] + a[1] * b[1];
  }

  // ---------------------------------------------------------------------------
  // Cross product
  // ---------------------------------------------------------------------------

  /** The cross product of two 3-vectors. */
  function Cross(a: seq<real>, b: seq<real>): (c: seq<real>)
    requires |a| == 3 && |b| == 3
    ensures |c| == 3
  {
    [a[1] * b[2] - a[2] * b[1], a[2] * b[0] - a[0] * b[2], a[0] * b[1] - a[1] * b[0]]
  }

  /** Swapping the operands of a cross product negates it. */
  lemma CrossAnticommutative(a: seq<real>, b: seq<real>)
    requires |a| == 3 && |b| == 3
    ensures Cross(b, a) == Scaled(Cross(a, b), -1.0)
  {
  }

  /** The cross product is orthogonal to both operands. */
  lemma CrossOrthogonal(a: seq<real>, b: seq<real>)
    requires |a| == 3 && |b| == 3
    ensures Dot(a, Cross(a, b)) == 0.0
    ensures Dot(b, Cross(a, b)) == 0.0
  {
    var c := Cross(a, b);
    Dot3(a, c);
    Dot3(b, c);
    assert a[0] * c[0] + a[1] * c[1] + a[2] * c[2] == 0.0;
    assert b[0] * c[0] + b[1] * c[1] + b[2] * c[2] == 0.0;
  }

  /** (1, 2, 3) x (3, 2, 1) = (-4, 8, -4), the case the demo program computes. */
  lemma CrossExample()
    ensures Cross([1.0, 2.0, 3.0], [3.0, 2.0, 1.0]) == [-4.0, 8.0, -4.0]
  {
  }

  // ---------------------------------------------------------------------------
  // Grids: the value of a matrix
  // ---------------------------------------------------------------------------

  /** A rows x cols grid of reals, stored row by row. */
  datatype Grid = Grid(rows: nat, cols: nat, cells: seq<seq<real>>)
  {
    /** Every row holds exactly `cols` entries. */
    predicate Valid()
    {
      |cells| == rows && forall i :: 0 <= i < rows ==> |cells[i]| == cols
    }

    function Row(i: nat): (r: seq<real>)
      requires Valid() && i < rows
      ensures |r| == cols
    {
      cells[i]
    }

    function Column(j: nat): (c: seq<real>)
      requires Valid() && j < cols
      ensures |c| == rows
      ensures forall i :: 0 <= i < rows ==> c[i] == cells[i][j]
    {
      seq(rows, i requires 0 <= i < rows => cells[i][j])
    }
  }

  /** A non-empty list of rows in which every row is as long as the first. */
  predicate IsRectangular(raw: seq<seq<real>>)
    requires |raw| > 0
  {
    forall i :: 0 <= i < |raw| ==> |raw[i]| == |raw[0]|
  }

  /** The rows x cols grid of zeros. */
  function Zeros(rows: nat, cols: nat): (g: Grid)
    ensures g.Valid() && g.rows == rows && g.cols == cols
  {
    Grid(rows, cols, seq(rows, _ => seq(cols, _ => 0.0)))
  }

  /** The grid with one column holding x. */
  function ColumnGrid(x: seq<real>): (g: Grid)
    ensures g.Valid() && g.rows == |x| && g.cols == 1
  {
    Grid(|x|, 1, seq(|x|, i requires 0 <= i < |x| => [x[i]]))
  }

  /** The transpose: row j of the result is column j of g. */
  function Transposed(g: Grid): (t: Grid)
    requires g.Valid()
    ensures t.Valid() && t.rows == g.cols && t.cols == g.rows
  {
    Grid(g.cols, g.rows, seq(g.cols, j requires 0 <= j < g.cols => g.Column(j)))
  }

  /** Entry (j, i) of the transpose is entry (i, j) of the original. */
  lemma TransposedAt(g: Grid, i: nat, j: nat)
    requires g.Valid() && i < g.rows && j < g.cols
    ensures Transposed(g).cells[j][i] == g.cells[i][j]
  {
  }

  /** Transposing twice gives back the original grid. */
  lemma TransposeInvolution(g: Grid)
    requires g.Valid()
    ensures Transposed(Transposed(g)) == g
  {
    var tt := Transposed(Transposed(g));
    forall i | 0 <= i < g.rows
      ensures tt.cells[i] == g.cells[i]
    {
      assert forall j | 0 <= j < g.cols :: tt.cells[i][j] == g.cells[i][j];
    }
    assert tt.cells == g.cells;
  }

  /** Transposing a one-row grid gives the column grid of that row. */
  lemma TransposedRow(x: seq<real>)
    ensures Transposed(Grid(1, |x|, [x])) == ColumnGrid(x)
  {
    var t := Transposed(Grid(1, |x|, [x]));
    forall j | 0 <= j < |x|
      ensures t.cells[j] == [x[j]]
    {
      assert t.cells[j][0] == x[j];
    }
    assert t.cells == ColumnGrid(x).cells;
  }

  /** The three entry-wise operations: add, subtract, Hadamard product. */
  datatype CellOp = Plus | Minus | Times

  function Apply(op: CellOp, x: real, y: real): real
  {
    match op
    case Plus => x + y
    case Minus => x - y
    case Times => x * y
  }

  /** Combines two grids of the same shape entry by entry. */
  function Pointwise(op: CellOp, a: Grid, b: Grid): (g: Grid)
    requires a.Valid() && b.Valid() && a.rows == b.rows && a.cols == b.cols
    ensures g.Valid() && g.rows == a.rows && g.cols == a.cols
  {
    Grid(a.rows, a.cols,
      seq(a.rows, i requires 0 <= i < a.rows =>
        seq(a.cols, j requires 0 <= j < a.cols => Apply(op, a.cells[i][j], b.cells[i][j]))))
  }

  /** Sum and Hadamard product do not depend on the order of the operands. */
  lemma PointwiseCommutative(op: CellOp, a: Grid, b: Grid)
    requires op != Minus
    requires a.Valid() && b.Valid() && a.rows == b.rows && a.cols == b.cols
    ensures Pointwise(op, a, b) == Pointwise(op, b, a)
  {
    var ab, ba := Pointwise(op, a, b), Pointwise(op, b, a);
    forall i | 0 <= i < a.rows
      ensures ab.cells[i] == ba.cells[i]
    {
      assert forall j | 0 <= j < a.cols :: ab.cells[i][j] == ba.cells[i][j];
    }
    assert ab.cells == ba.cells;
  }

  /** Adding b back to a - b gives a: subtraction undoes addition. */
  lemma SubtractThenAdd(a: Grid, b: Grid)
    requires a.Valid() && b.Valid() && a.rows == b.rows && a.cols == b.cols
    ensures Pointwise(Plus, Pointwise(Minus, a, b), b) == a
  {
    var g := Pointwise(Plus, Pointwise(Minus, a, b), b);
    forall i | 0 <= i < a.rows
      ensures g.cells[i] == a.cells[i]
    {
      assert forall j | 0 <= j < a.cols :: g.cells[i][j] == a.cells[i][j];
    }
    assert g.cells == a.cells;
  }

  /** The matrix product: entry (i, j) is row i of a dotted with column j of b. */
  function Product(a: Grid, b: Grid): (p: Grid)
    requires a.Valid() && b.Valid() && a.cols == b.rows
    ensures p.Valid() && p.rows == a.rows && p.cols == b.cols
  {
    Grid(a.rows, b.cols,
      seq(a.rows, i requires 0 <= i < a.rows =>
        seq(b.cols, j requires 0 <= j < b.cols => Dot(a.Row(i), b.Column(j)))))
  }

  /** The matrix applied to a column vector: entry i is row i dotted with x. */
  function Transform(a: Grid, x: seq<real>): (y: seq<real>)
    requires a.Valid() && |x| == a.cols
    ensures |y| == a.rows
  {
    seq(a.rows, i requires 0 <= i < a.rows => Dot(a.Row(i), x))
  }

  /** The transpose of a product is the product of the transposes in reverse order. */
  lemma ProductTransposed(a: Grid, b: Grid)
    requires a.Valid() && b.Valid() && a.cols == b.rows
    ensures Transposed(Product(a, b)) == Product(Transposed(b), Transposed(a))
  {
    var lhs, rhs := Transposed(Product(a, b)), Product(Transposed(b), Transposed(a));
    forall j | 0 <= j < b.cols
      ensures lhs.cells[j] == rhs.cells[j]
    {
      forall i | 0 <= i < a.rows
        ensures lhs.cells[j][i] == rhs.cells[j][i]
      {
        assert Transposed(a).Column(i) == a.Row(i);
        DotSymmetric(a.Row(i), b.Column(j));
      }
    }
    assert lhs.cells == rhs.cells;
  }

  /** The row vector x times b: entry j is x dotted with column j of b. */
  function RowTimes(x: seq<real>, b: Grid): (y: seq<real>)
    requires b.Valid() && |x| == b.rows
    ensures |y| == b.cols
  {
    seq(b.cols, j requires 0 <= j < b.cols => Dot(x, b.Column(j)))
  }

  /** b applied to the first n entries of y only: entry k is DotUpTo(row k of b, y, n). */
  function TransformUpTo(b: Grid, y: seq<real>, n: nat): (z: seq<real>)
    requires b.Valid() && n <= b.cols && n <= |y|
    ensures |z| == b.rows
  {
    seq(b.rows, k requires 0 <= k < b.rows => DotUpTo(b.Row(k), y, n))
  }

  /** A sum of products against all-zero entries is zero. */
  lemma {:induction false} DotUpToZero(x: seq<real>, z: seq<real>, p: nat)
    requires p <= |x| && p <= |z|
    requires forall k :: 0 <= k < p ==> z[k] == 0.0
    ensures DotUpTo(x, z, p) == 0.0
  {
    if p > 0 {
      DotUpToZero(x, z, p - 1);
    }
  }

  /** DotUpTo is linear in its second argument: if v = u + t w entry-wise, the sums split the same way. */
  lemma {:induction false} DotUpToLinear(x: seq<real>, u: seq<real>, w: seq<real>, v: seq<real>, t: real, p: nat)
    requires p <= |x| && p <= |u| && p <= |w| && p <= |v|
    requires forall k :: 0 <= k < p ==> v[k] == u[k] + t * w[k]
    ensures DotUpTo(x, v, p) == DotUpTo(x, u, p) + t * DotUpTo(x, w, p)
  {
    if p > 0 {
      DotUpToLinear(x, u, w, v, t, p - 1);
      var a, b := DotUpTo(x, u, p - 1), DotUpTo(x, w, p - 1);
      assert x[p - 1] * v[p - 1] == x[p - 1] * u[p - 1] + t * (x[p - 1] * w[p - 1]);
      assert t * (b + x[p - 1] * w[p - 1]) == t * b + t * (x[p - 1] * w[p - 1]);
    }
  }

  /** (x b) . y over the first n columns equals x . (b y) over the same columns. */
  lemma {:induction false} RowTimesDotUpTo(x: seq<real>, b: Grid, y: seq<real>, n: nat)
    requires b.Valid() && |x| == b.rows && |y| == b.cols && n <= b.cols
    ensures DotUpTo(RowTimes(x, b), y, n) == Dot(x, TransformUpTo(b, y, n))
  {
    var xb := RowTimes(x, b);
    if n == 0 {
      DotUpToZero(x, TransformUpTo(b, y, 0), |x|);
    } else {
      RowTimesDotUpTo(x, b, y, n - 1);
      var u, v, w := TransformUpTo(b, y, n - 1), TransformUpTo(b, y, n), b.Column(n - 1);
      forall k | 0 <= k < b.rows
        ensures v[k] == u[k] + y[n - 1] * w[k]
      {
        assert b.Row(k)[n - 1] == w[k];
      }
      DotUpToLinear(x, u, w, v, y[n - 1], |x|);
      assert xb[n - 1] == Dot(x, w);
    }
  }

  /** Multiplying the row vector x by b and then dotting with y equals dotting x with b applied to y. */
  lemma RowTimesDot(x: seq<real>, b: Grid, y: seq<real>)
    requires b.Valid() && |x| == b.rows && |y| == b.cols
    ensures Dot(RowTimes(x, b), y) == Dot(x, Transform(b, y))
  {
    RowTimesDotUpTo(x, b, y, b.cols);
    assert TransformUpTo(b, y, b.cols) == Transform(b, y);
  }

  /** Matrix multiplication is associative. */
  lemma ProductAssociative(a: Grid, b: Grid, c: Grid)
    requires a.Valid() && b.Valid() && c.Valid() && a.cols == b.rows && b.cols == c.rows
    ensures Product(Product(a, b), c) == Product(a, Product(b, c))
  {
    var ab, bc := Product(a, b), Product(b, c);
    var lhs, rhs := Product(ab, c), Product(a, bc);
    forall i | 0 <= i < a.rows
      ensures lhs.cells[i] == rhs.cells[i]
    {
      assert ab.Row(i) == RowTimes(a.Row(i), b);
      forall l | 0 <= l < c.cols
        ensures lhs.cells[i][l] == rhs.cells[i][l]
      {
        assert bc.Column(l) == Transform(b, c.Column(l));
        RowTimesDot(a.Row(i), b, c.Column(l));
      }
    }
    assert lhs.cells == rhs.cells;
  }

  /** Applying a to x is the single column of the product of a with x as a column grid. */
  lemma TransformIsProductColumn(a: Grid, x: seq<real>)
    requires a.Valid() && |x| == a.cols
    ensures Product(a, ColumnGrid(x)).Column(0) == Transform(a, x)
  {
    assert ColumnGrid(x).Column(0) == x;
  }
}
