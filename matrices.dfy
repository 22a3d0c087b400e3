/**
 * The library's two classes. They live in one module because each refers to
 * the other: a Matrix can be built from Vectors, and a Vector converts to a
 * column Matrix.
 */
module Matrices {
  import opened Wrappers
  import Algebra

  /**
   * A fixed-length vector over a backing array. The backing array and the
   * dimension are fixed at construction; the elements change in place through
   * SetValue and Scale.
   */
  class Vector {
    const vector: array<real>
    const dim: nat

    /** The dimension is the length of the backing array. */
    predicate Valid()
    {
      dim == vector.Length
    }

    /** The current elements. */
    function Elements(): (s: seq<real>)
      reads vector
      ensures |s| == vector.Length
    {
      vector[..]
    }

    /** The varargs constructor: the vector keeps the caller's array itself, not a copy. */
    constructor FromElements(elements: array<real>)
      ensures Valid() && vector == elements && dim == elements.Length
    {
      vector := elements;
      dim := elements.Length;
    }

    /** The zero vector of the given dimension. */
    constructor OfDimension(n: nat)
      ensures Valid() && fresh(vector) && dim == n
      ensures Elements() == seq(n, _ => 0.0)
    {
      dim := n;
      vector := new real[n](_ => 0.0);
    }

    /** The dimension, which is the number of elements. */
    function Dim(): (d: nat)
      requires Valid()
      reads vector
      ensures d == |Elements()|
    {
      dim
    }

    /** Element i, or None when i is outside 0 .. dim - 1. */
    function Get(i: int): (r: Option<real>)
      requires Valid()
      reads vector
      ensures r.Some? <==> 0 <= i < dim
      ensures r.Some? ==> r.value == Elements()[i]
    {
      if i >= dim || i < 0 then None else Some(vector[i])
    }

    /** Overwrites element i; an index outside 0 .. dim - 1 changes nothing. */
    method SetValue(i: int, val: real)
      requires Valid()
      modifies vector
      ensures Elements() == if 0 <= i < dim then old(Elements())[i := val] else old(Elements())
    {
      if i >= 0 && i < dim {
        vector[i] := val;
      }
    }

    /** The sum of squares that magnitude() takes the square root of. */
    method SquaredMagnitude() returns (sum: real)
      requires Valid()
      ensures sum == Algebra.Dot(Elements(), Elements())
      ensures sum >= 0.0
    {
      sum := 0.0;
      for k := 0 to vector.Length
        invariant sum == Algebra.DotUpTo(vector[..], vector[..], k)
      {
        sum := sum + vector[k] * vector[k];
      }
      Algebra.DotSelfNonNegative(Elements());
    }

    /**
     * Multiplies every element by scalar, in place, and returns this same
     * vector rather than a copy.
     */
    method Scale(scalar: real) returns (r: Vector)
      requires Valid()
      modifies vector
      ensures r == this
      ensures Elements() == Algebra.Scaled(old(Elements()), scalar)
    {
      var i := 0;
      while i < dim
        invariant 0 <= i <= dim
        invariant forall k :: 0 <= k < i ==> vector[k] == old(vector[k]) * scalar
        invariant forall k :: i <= k < dim ==> vector[k] == old(vector[k])
      {
        var val := vector[i];
        SetValue(i, val * scalar);
        i := i + 1;
      }
      assert forall k :: 0 <= k < dim ==> Elements()[k] == Algebra.Scaled(old(Elements()), scalar)[k];
      r := this;
    }

    /** The dot product of v1 and v2, or None when their dimensions differ. */
    static method Dot(v1: Vector, v2: Vector) returns (r: Option<real>)
      requires v1.Valid() && v2.Valid()
      ensures r.None? <==> v1.dim != v2.dim
      ensures r.Some? ==> |v1.Elements()| == |v2.Elements()|
                          && r.value == Algebra.Dot(v1.Elements(), v2.Elements())
    {
      if v1.dim != v2.dim {
        return None;
      }
      var s := 0.0;
      for i := 0 to v1.dim
        invariant s == Algebra.DotUpTo(v1.vector[..], v2.vector[..], i)
      {
        s := s + v1.vector[i] * v2.vector[i];
      }
      return Some(s);
    }

    /** The dot product of this vector with v2, or None when the dimensions differ. */
    method DotWith(v2: Vector) returns (r: Option<real>)
      requires Valid() && v2.Valid()
      ensures r.None? <==> v2.dim != dim
      ensures r.Some? ==> |Elements()| == |v2.Elements()|
                          && r.value == Algebra.Dot(Elements(), v2.Elements())
    {
      if v2.dim != dim {
        return None;
      }
      r := Dot(this, v2);
    }

    /**
     * The cross product of two 3-vectors as a new vector, or None unless both
     * operands have dimension 3. The library's own guard rejects only the case
     * in which both dimensions differ from 3; see CrossProductAsWritten.
     */
    static method CrossProduct(v1: Vector, v2: Vector) returns (r: Option<Vector>)
      requires v1.Valid() && v2.Valid()
      ensures r.None? <==> v1.dim != 3 || v2.dim != 3
      ensures r.Some? ==> fresh(r.value) && fresh(r.value.vector) && r.value.Valid()
                          && |v1.Elements()| == 3 && |v2.Elements()| == 3
                          && r.value.Elements() == Algebra.Cross(v1.Elements(), v2.Elements())
    {
      if v1.dim != 3 || v2.dim != 3 {
        return None;
      }
      var c := Algebra.Cross(v1.Elements(), v2.Elements());
      var elements := new real[3](i requires 0 <= i < 3 => c[i]);
      var v := new Vector.FromElements(elements);
      return Some(v);
    }

    /** The cross product of this vector with v2. */
    method CrossWith(v2: Vector) returns (r: Option<Vector>)
      requires Valid() && v2.Valid()
      ensures r.None? <==> dim != 3 || v2.dim != 3
      ensures r.Some? ==> fresh(r.value) && fresh(r.value.vector) && r.value.Valid()
                          && |Elements()| == 3 && |v2.Elements()| == 3
                          && r.value.Elements() == Algebra.Cross(Elements(), v2.Elements())
    {
      r := CrossProduct(this, v2);
    }

    /**
     * The guarded part of angleBetween: None when the dimensions differ;
     * otherwise the dot product and the product of the two squared
     * magnitudes, whose square root divides the dot product before the arc
     * cosine is taken.
     */
    static method AngleBetweenParts(v1: Vector, v2: Vector) returns (r: Option<(real, real)>)
      requires v1.Valid() && v2.Valid()
      ensures r.None? <==> v1.dim != v2.dim
      ensures r.Some? ==> |v1.Elements()| == |v2.Elements()|
                          && r.value.0 == Algebra.Dot(v1.Elements(), v2.Elements())
                          && r.value.1 == Algebra.Dot(v1.Elements(), v1.Elements()) * Algebra.Dot(v2.Elements(), v2.Elements())
                          && r.value.1 >= 0.0
    {
      if v1.dim != v2.dim {
        return None;
      }
      var d := v1.DotWith(v2);
      var m1 := v1.SquaredMagnitude();
      var m2 := v2.SquaredMagnitude();
      if m1 > 0.0 && m2 > 0.0 {
        Algebra.PositiveProduct(m1, m2);
      }
      return Some((d.value, m1 * m2));
    }

    /**
     * crossProduct as the library writes it, on the operands' elements: it
     * returns null only when BOTH dimensions differ from 3. When exactly one is
     * 3, the other operand's elements 0, 1, 2 are read; if it has fewer, a get
     * returns null and unboxing it throws, which the requires excludes.
     */
    static function CrossProductAsWritten(a: seq<real>, b: seq<real>): (r: Option<seq<real>>)
      requires |a| == 3 || |b| == 3 ==> |a| >= 3 && |b| >= 3
      ensures r.None? <==> |a| != 3 && |b| != 3
      ensures r.Some? ==> r.value == Algebra.Cross(a[..3], b[..3])
    {
      if |a| != 3 && |b| != 3 then None else Some(Algebra.Cross(a[..3], b[..3]))
    }

    /** The guard as written lets a 3-vector and a 4-vector through, and a value comes back. */
    static lemma CrossProductAsWrittenAcceptsFourVector()
      ensures CrossProductAsWritten([1.0, 2.0, 3.0], [3.0, 2.0, 1.0, 7.0]) == Some([-4.0, 8.0, -4.0])
    {
      assert [3.0, 2.0, 1.0, 7.0][..3] == [3.0, 2.0, 1.0];
    }

    /** The column matrix holding this vector, built as the transpose of the one-row matrix. */
    method ToColumnMatrix() returns (m: Matrix)
      requires Valid()
      ensures fresh(m) && fresh(m.mat) && m.Valid()
      ensures m.rows == dim && m.cols == 1
      ensures m.Value() == Algebra.ColumnGrid(Elements())
    {
      var row := new Matrix.FromRow(vector);
      m := row.T();
      Algebra.TransposedRow(Elements());
    }
  }

  /**
   * A rows x cols grid of reals. A constructor given a ragged grid or vectors
   * of unequal dimension builds the failure state, in which mat is null.
   */
  class Matrix {
    const mat: array2?<real>
    const rows: nat
    const cols: nat

    /** The construction-failure state: the grid is null (rows and cols are then 0). */
    predicate Failed()
    {
      mat == null
    }

    /** A constructed matrix: the grid exists and has the recorded shape. */
    predicate Valid()
    {
      mat != null && mat.Length0 == rows && mat.Length1 == cols
    }

    /** The current contents as a value. */
    ghost function Value(): (g: Algebra.Grid)
      requires Valid()
      reads mat
      ensures g.Valid() && g.rows == rows && g.cols == cols
    {
      Algebra.Grid(rows, cols,
        seq(rows, i requires 0 <= i < rows reads mat =>
          seq(cols, j requires 0 <= j < cols reads mat => mat[i, j])))
    }

    /** The row count; the failure state has none (the library unboxes a null there). */
    function RowLength(): (n: nat)
      requires Valid()
      reads mat
      ensures n == Value().rows && n == mat.Length0
    {
      rows
    }

    /** The column count; the failure state has none. */
    function ColLength(): (n: nat)
      requires Valid()
      reads mat
      ensures n == Value().cols && n == mat.Length1
    {
      cols
    }

    /** The contents equal g when they agree with it entry by entry. */
    lemma ValueFromEntries(g: Algebra.Grid)
      requires Valid() && g.Valid() && g.rows == rows && g.cols == cols
      requires forall i, j :: 0 <= i < rows && 0 <= j < cols ==> mat[i, j] == g.cells[i][j]
      ensures Value() == g
    {
      forall i | 0 <= i < rows
        ensures Value().cells[i] == g.cells[i]
      {
        assert forall j | 0 <= j < cols :: Value().cells[i][j] == g.cells[i][j];
      }
      assert Value().cells == g.cells;
    }

    /** True when every row of m is as long as the first one. */
    static method IsValidMatrix(m: seq<seq<real>>) returns (ok: bool)
      requires |m| > 0
      ensures ok <==> Algebra.IsRectangular(m)
    {
      var c := |m[0]|;
      for k := 0 to |m|
        invariant forall i :: 0 <= i < k ==> |m[i]| == c
      {
        if |m[k]| != c {
          return false;
        }
      }
      return true;
    }

    /**
     * A matrix from a 2D grid; a ragged grid gives the failure state. An empty
     * grid has no first row to measure, so the library throws on it.
     */
    constructor FromRaw(raw: seq<seq<real>>)
      requires |raw| > 0
      ensures Failed() <==> !Algebra.IsRectangular(raw)
      ensures Failed() ==> rows == 0 && cols == 0
      ensures !Failed() ==> Valid() && fresh(mat) && rows == |raw| && cols == |raw[0]|
                            && Value() == Algebra.Grid(|raw|, |raw[0]|, raw)
    {
      var ok := IsValidMatrix(raw);
      if ok {
        var m := new real[|raw|, |raw[0]|];
        forall i, j | 0 <= i < |raw| && 0 <= j < |raw[0]| {
          m[i, j] := raw[i][j];
        }
        mat, rows, cols := m, |raw|, |raw[0]|;
      } else {
        mat, rows, cols := null, 0, 0;
      }
      new;
      if ok {
        ValueFromEntries(Algebra.Grid(|raw|, |raw[0]|, raw));
      }
    }

    /** The 1 x n matrix whose only row holds the given elements. */
    constructor FromRow(vector: array<real>)
      ensures Valid() && fresh(mat) && rows == 1 && cols == vector.Length
      ensures Value() == Algebra.Grid(1, vector.Length, [vector[..]])
    {
      var m := new real[1, vector.Length];
      forall j | 0 <= j < vector.Length {
        m[0, j] := vector[j];
      }
      mat, rows, cols := m, 1, vector.Length;
      new;
      ValueFromEntries(Algebra.Grid(1, vector.Length, [vector[..]]));
    }

    /** The rows x cols matrix of zeros. */
    constructor Zero(rows: nat, cols: nat)
      ensures Valid() && fresh(mat) && this.rows == rows && this.cols == cols
      ensures Value() == Algebra.Zeros(rows, cols)
    {
      mat := new real[rows, cols]((_, _) => 0.0);
      this.rows, this.cols := rows, cols;
      new;
      ValueFromEntries(Algebra.Zeros(rows, cols));
    }

    /**
     * A matrix whose row i holds the elements of vs[i]. If some vector's
     * dimension differs from the first one's, the result is the failure state.
     * With no vectors there is no first dimension, so the library throws.
     */
    constructor FromVectors(vs: seq<Vector>)
      requires |vs| > 0
      requires forall k :: 0 <= k < |vs| ==> vs[k].Valid()
      ensures Failed() <==> exists k :: 0 <= k < |vs| && vs[k].dim != vs[0].dim
      ensures Failed() ==> rows == 0 && cols == 0
      ensures !Failed() ==> Valid() && fresh(mat) && rows == |vs| && cols == vs[0].dim
      ensures !Failed() ==> forall i :: 0 <= i < |vs| ==> Value().cells[i] == vs[i].Elements()
    {
      var theRows, theCols := |vs|, vs[0].dim;
      var theMat: array2?<real> := new real[theRows, theCols];
      ghost var mismatch := -1;
      var index := 0;
      while index < |vs|
        invariant 0 <= index <= |vs|
        invariant theMat != null && fresh(theMat)
        invariant theMat.Length0 == theRows && theMat.Length1 == theCols
        invariant forall k :: 0 <= k < index ==> vs[k].dim == theCols
        invariant forall k, j :: 0 <= k < index && 0 <= j < theCols ==> theMat[k, j] == vs[k].vector[j]
      {
        var row := vs[index];
        if row.dim != theCols {
          mismatch := index;
          theMat := null;
          break;
        }
        forall j | 0 <= j < theCols {
          theMat[index, j] := row.vector[j];
        }
        index := index + 1;
      }
      if theMat == null {
        mat, rows, cols := null, 0, 0;
      } else {
        mat, rows, cols := theMat, theRows, theCols;
      }
      new;
      if mat != null {
        forall i | 0 <= i < |vs|
          ensures Value().cells[i] == vs[i].Elements()
        {
          assert forall j | 0 <= j < cols :: Value().cells[i][j] == vs[i].Elements()[j];
        }
      } else {
        assert vs[mismatch].dim != vs[0].dim;
      }
    }

    /**
     * Row i as a new array, or None when i is outside 0 .. rows - 1. The
     * library's guard lets i == rows through; see IndexGuardAsWritten. A
     * negative index is rejected before the row count is read, so a failed
     * matrix answers None to it; any other index on a failed matrix unboxes
     * the null row count and throws.
     */
    method GetRow(i: int) returns (r: Option<array<real>>)
      requires Valid() || (Failed() && i < 0)
      ensures r.None? <==> !(0 <= i < rows)
      ensures r.Some? ==> Valid() && 0 <= i < rows && fresh(r.value) && r.value[..] == Value().Row(i)
    {
      if i < 0 {
        return None;
      }
      if i >= rows {
        return None;
      }
      var row := new real[cols];
      forall j | 0 <= j < cols {
        row[j] := mat[i, j];
      }
      return Some(row);
    }

    /**
     * Column i copied into a new array, or None when i is outside 0 .. cols - 1.
     * The library's guard lets i == cols through; see IndexGuardAsWritten. As
     * in GetRow, a failed matrix answers None to a negative index.
     */
    method GetCol(i: int) returns (r: Option<array<real>>)
      requires Valid() || (Failed() && i < 0)
      ensures r.None? <==> !(0 <= i < cols)
      ensures r.Some? ==> Valid() && 0 <= i < cols && fresh(r.value) && r.value[..] == Value().Column(i)
    {
      if i < 0 {
        return None;
      }
      if i >= cols {
        return None;
      }
      var col := new real[rows];
      for row := 0 to rows
        invariant forall k :: 0 <= k < row ==> col[k] == mat[k, i]
      {
        col[row] := mat[row, i];
      }
      return Some(col);
    }

    /** The guard of getRow and getCol as written: it rejects i < 0 and i > n only. */
    static predicate IndexGuardAsWritten(i: int, n: int)
    {
      !(i < 0 || i > n)
    }

    /** The guard as written admits the index n, one past the last row or column. */
    static lemma IndexGuardAsWrittenAdmitsLength(n: nat)
      ensures IndexGuardAsWritten(n, n) && !(0 <= n < n)
    {
    }

    /** Entry (row, col); the library does not check the indices, so neither may be out of range. */
    function GetElement(row: int, col: int): (r: real)
      requires Valid() && 0 <= row < rows && 0 <= col < cols
      reads mat
      ensures r == Value().cells[row][col]
    {
      mat[row, col]
    }

    /** Overwrites entry (i, j) and nothing else; the indices are not checked. */
    method SetElement(val: real, i: int, j: int)
      requires Valid() && 0 <= i < rows && 0 <= j < cols
      modifies mat
      ensures mat[i, j] == val
      ensures forall p, q :: 0 <= p < rows && 0 <= q < cols && (p != i || q != j) ==> mat[p, q] == old(mat[p, q])
      ensures Value().cells == old(Value().cells)[i := old(Value().cells)[i][j := val]]
    {
      ghost var before := Value().cells;
      mat[i, j] := val;
      ghost var after := Value().cells;
      forall p | 0 <= p < rows
        ensures after[p] == before[i := before[i][j := val]][p]
      {
        assert forall q | 0 <= q < cols :: after[p][q] == before[i := before[i][j := val]][p][q];
      }
    }

    /** The dot product of two arrays, or None when their lengths differ. */
    static method DotVectors(a: array<real>, b: array<real>) returns (r: Option<real>)
      ensures r.None? <==> a.Length != b.Length
      ensures r.Some? ==> a.Length == b.Length && r.value == Algebra.Dot(a[..], b[..])
    {
      if a.Length != b.Length {
        return None;
      }
      var dot := 0.0;
      for i := 0 to a.Length
        invariant dot == Algebra.DotUpTo(a[..], b[..], i)
      {
        dot := dot + a[i] * b[i];
      }
      return Some(dot);
    }

    /**
     * The product m1 * m2 as a new matrix, or None when m1's column count
     * differs from m2's row count. Entry (r, c) is row r of m1 dotted with
     * column c of m2.
     */
    static method Mul(m1: Matrix, m2: Matrix) returns (r: Option<Matrix>)
      requires m1.Valid() && m2.Valid()
      ensures r.None? <==> m1.cols != m2.rows
      ensures r.Some? ==> m1.cols == m2.rows && fresh(r.value) && fresh(r.value.mat) && r.value.Valid()
                          && r.value.Value() == Algebra.Product(m1.Value(), m2.Value())
    {
      if m1.cols != m2.rows {
        return None;
      }
      ghost var a, b := m1.Value(), m2.Value();
      var newMatrix := new Matrix.Zero(m1.rows, m2.cols);
      for row := 0 to m1.rows
        modifies newMatrix.mat
        invariant m1.Value() == a && m2.Value() == b
        invariant forall p, q :: 0 <= p < row && 0 <= q < m2.cols ==>
                    newMatrix.mat[p, q] == Algebra.Dot(a.Row(p), b.Column(q))
      {
        var rowVector := m1.GetRow(row);
        for col := 0 to m2.cols
          modifies newMatrix.mat
          invariant m1.Value() == a && m2.Value() == b
          invariant rowVector.value[..] == a.Row(row)
          invariant forall p, q :: 0 <= p < row && 0 <= q < m2.cols ==>
                      newMatrix.mat[p, q] == Algebra.Dot(a.Row(p), b.Column(q))
          invariant forall q :: 0 <= q < col ==> newMatrix.mat[row, q] == Algebra.Dot(a.Row(row), b.Column(q))
        {
          var colVector := m2.GetCol(col);
          var val := DotVectors(rowVector.value, colVector.value);
          newMatrix.SetElement(val.value, row, col);
        }
      }
      newMatrix.ValueFromEntries(Algebra.Product(a, b));
      return Some(newMatrix);
    }

    /** The product of this matrix with m2. */
    method MulBy(m2: Matrix) returns (r: Option<Matrix>)
      requires Valid() && m2.Valid()
      ensures r.None? <==> cols != m2.rows
      ensures r.Some? ==> cols == m2.rows && fresh(r.value) && fresh(r.value.mat) && r.value.Valid()
                          && r.value.Value() == Algebra.Product(Value(), m2.Value())
    {
      r := Mul(this, m2);
    }

    /**
     * The entry-wise combination of two matrices of the same shape as a new
     * matrix, or None when the row or column counts differ.
     */
    static method Elementwise(m1: Matrix, m2: Matrix, op: Algebra.CellOp) returns (r: Option<Matrix>)
      requires m1.Valid() && m2.Valid()
      ensures r.None? <==> m1.cols != m2.cols || m1.rows != m2.rows
      ensures r.Some? ==> m1.rows == m2.rows && m1.cols == m2.cols
                          && fresh(r.value) && fresh(r.value.mat) && r.value.Valid()
                          && r.value.Value() == Algebra.Pointwise(op, m1.Value(), m2.Value())
    {
      if m1.cols != m2.cols || m1.rows != m2.rows {
        return None;
      }
      var rs, cs := m1.rows, m1.cols;
      var newMat := new Matrix.Zero(rs, cs);
      for i := 0 to rs
        modifies newMat.mat
        invariant forall p, q :: 0 <= p < i && 0 <= q < cs ==>
                    newMat.mat[p, q] == Algebra.Apply(op, m1.mat[p, q], m2.mat[p, q])
      {
        for j := 0 to cs
          modifies newMat.mat
          invariant forall p, q :: 0 <= p < i && 0 <= q < cs ==>
                      newMat.mat[p, q] == Algebra.Apply(op, m1.mat[p, q], m2.mat[p, q])
          invariant forall q :: 0 <= q < j ==> newMat.mat[i, q] == Algebra.Apply(op, m1.mat[i, q], m2.mat[i, q])
        {
          newMat.SetElement(Algebra.Apply(op, m1.GetElement(i, j), m2.GetElement(i, j)), i, j);
        }
      }
      newMat.ValueFromEntries(Algebra.Pointwise(op, m1.Value(), m2.Value()));
      return Some(newMat);
    }

    /** m1 + m2, or None when the shapes differ. */
    static method Add(m1: Matrix, m2: Matrix) returns (r: Option<Matrix>)
      requires m1.Valid() && m2.Valid()
      ensures r.None? <==> m1.cols != m2.cols || m1.rows != m2.rows
      ensures r.Some? ==> m1.rows == m2.rows && m1.cols == m2.cols
                          && fresh(r.value) && fresh(r.value.mat) && r.value.Valid()
                          && r.value.Value() == Algebra.Pointwise(Algebra.Plus, m1.Value(), m2.Value())
    {
      r := Elementwise(m1, m2, Algebra.Plus);
    }

    /** This matrix plus m2. */
    method Plus(m2: Matrix) returns (r: Option<Matrix>)
      requires Valid() && m2.Valid()
      ensures r.None? <==> cols != m2.cols || rows != m2.rows
      ensures r.Some? ==> rows == m2.rows && cols == m2.cols
                          && fresh(r.value) && fresh(r.value.mat) && r.value.Valid()
                          && r.value.Value() == Algebra.Pointwise(Algebra.Plus, Value(), m2.Value())
    {
      r := Add(this, m2);
    }

    /** m1 - m2, or None when the shapes differ. */
    static method Subtract(m1: Matrix, m2: Matrix) returns (r: Option<Matrix>)
      requires m1.Valid() && m2.Valid()
      ensures r.None? <==> m1.cols != m2.cols || m1.rows != m2.rows
      ensures r.Some? ==> m1.rows == m2.rows && m1.cols == m2.cols
                          && fresh(r.value) && fresh(r.value.mat) && r.value.Valid()
                          && r.value.Value() == Algebra.Pointwise(Algebra.Minus, m1.Value(), m2.Value())
    {
      r := Elementwise(m1, m2, Algebra.Minus);
    }

    /** This matrix minus m2. */
    method Minus(m2: Matrix) returns (r: Option<Matrix>)
      requires Valid() && m2.Valid()
      ensures r.None? <==> cols != m2.cols || rows != m2.rows
      ensures r.Some? ==> rows == m2.rows && cols == m2.cols
                          && fresh(r.value) && fresh(r.value.mat) && r.value.Valid()
                          && r.value.Value() == Algebra.Pointwise(Algebra.Minus, Value(), m2.Value())
    {
      r := Subtract(this, m2);
    }

    /** The Hadamard (entry-wise) product of m1 and m2, or None when the shapes differ. */
    static method HadamardProduct(m1: Matrix, m2: Matrix) returns (r: Option<Matrix>)
      requires m1.Valid() && m2.Valid()
      ensures r.None? <==> m1.cols != m2.cols || m1.rows != m2.rows
      ensures r.Some? ==> m1.rows == m2.rows && m1.cols == m2.cols
                          && fresh(r.value) && fresh(r.value.mat) && r.value.Valid()
                          && r.value.Value() == Algebra.Pointwise(Algebra.Times, m1.Value(), m2.Value())
    {
      r := Elementwise(m1, m2, Algebra.Times);
    }

    /** The Hadamard product of this matrix with m2. */
    method HadamardWith(m2: Matrix) returns (r: Option<Matrix>)
      requires Valid() && m2.Valid()
      ensures r.None? <==> cols != m2.cols || rows != m2.rows
      ensures r.Some? ==> rows == m2.rows && cols == m2.cols
                          && fresh(r.value) && fresh(r.value.mat) && r.value.Valid()
                          && r.value.Value() == Algebra.Pointwise(Algebra.Times, Value(), m2.Value())
    {
      r := HadamardProduct(this, m2);
    }

    /** The transpose as a new cols x rows matrix; this matrix is left unchanged. */
    method T() returns (t: Matrix)
      requires Valid()
      ensures fresh(t) && fresh(t.mat) && t.Valid()
      ensures t.Value() == Algebra.Transposed(Value())
    {
      var newMatrix := new Matrix.Zero(cols, rows);
      for r := 0 to rows
        modifies newMatrix.mat
        invariant forall p, q :: 0 <= p < r && 0 <= q < cols ==> newMatrix.mat[q, p] == mat[p, q]
      {
        for c := 0 to cols
          modifies newMatrix.mat
          invariant forall p, q :: 0 <= p < r && 0 <= q < cols ==> newMatrix.mat[q, p] == mat[p, q]
          invariant forall q :: 0 <= q < c ==> newMatrix.mat[q, r] == mat[r, q]
        {
          newMatrix.SetElement(GetElement(r, c), c, r);
        }
      }
      newMatrix.ValueFromEntries(Algebra.Transposed(Value()));
      t := newMatrix;
    }

    /**
     * This matrix applied to v as a column vector, as a new vector, or None
     * when v's dimension differs from the column count. Component i is row i
     * dotted with v.
     */
    method TransformVector(v: Vector) returns (r: Option<Vector>)
      requires Valid() && v.Valid()
      ensures r.None? <==> v.dim != cols
      ensures r.Some? ==> v.dim == cols && fresh(r.value) && fresh(r.value.vector) && r.value.Valid()
                          && r.value.dim == rows
                          && r.value.Elements() == Algebra.Transform(Value(), v.Elements())
    {
      if v.dim != cols {
        return None;
      }
      var column := v.ToColumnMatrix();
      var product := Mul(this, column);
      var col := product.value.GetCol(0);
      var w := new Vector.FromElements(col.value);
      Algebra.TransformIsProductColumn(Value(), v.Elements());
      return Some(w);
    }
  }
}
