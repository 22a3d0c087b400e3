/**
 * Rotations of 2D and 3D vectors. Each operation builds a fixed rotation
 * matrix and hands the vector to Matrix.TransformVector. The angle enters
 * only through its cosine c and sine s, which are parameters here.
 */
module RotUtil {
  import opened Wrappers
  import Algebra
  import opened Matrices

  /** The 2D rotation matrix: rows (c, -s) and (s, c). */
  function Rotation2D(c: real, s: real): (g: Algebra.Grid)
    ensures g.Valid() && g.rows == 2 && g.cols == 2
  {
    Algebra.Grid(2, 2, [[c, -s], [s, c]])
  }

  /** The yaw matrix: rows (c, 0, -s), (0, 1, 0) and (s, 0, c). */
  function YawGrid(c: real, s: real): (g: Algebra.Grid)
    ensures g.Valid() && g.rows == 3 && g.cols == 3
  {
    Algebra.Grid(3, 3, [[c, 0.0, -s], [0.0, 1.0, 0.0], [s, 0.0, c]])
  }

  /** The pitch matrix: rows (1, 0, 0), (0, c, -s) and (0, s, c). */
  function PitchGrid(c: real, s: real): (g: Algebra.Grid)
    ensures g.Valid() && g.rows == 3 && g.cols == 3
  {
    Algebra.Grid(3, 3, [[1.0, 0.0, 0.0], [0.0, c, -s], [0.0, s, c]])
  }

  /** The roll matrix: rows (c, -s, 0), (s, c, 0) and (0, 0, 1). */
  function RollGrid(c: real, s: real): (g: Algebra.Grid)
    ensures g.Valid() && g.rows == 3 && g.cols == 3
  {
    Algebra.Grid(3, 3, [[c, -s, 0.0], [s, c, 0.0], [0.0, 0.0, 1.0]])
  }

  /** The rotated point (x, y), written out: (c x - s y, s x + c y). */
  function Rotated2D(c: real, s: real, p: seq<real>): (q: seq<real>)
    requires |p| == 2
    ensures |q| == 2
  {
    [c * p[0] - s * p[1], s * p[0] + c * p[1]]
  }

  /** The yawed point (x, y, z), written out: (c x - s z, y, s x + c z). */
  function Yawed(c: real, s: real, p: seq<real>): (q: seq<real>)
    requires |p| == 3
    ensures |q| == 3 && q[1] == p[1]
  {
    [c * p[0] - s * p[2], p[1], s * p[0] + c * p[2]]
  }

  /** The pitched point (x, y, z), written out: (x, c y - s z, s y + c z). */
  function Pitched(c: real, s: real, p: seq<real>): (q: seq<real>)
    requires |p| == 3
    ensures |q| == 3 && q[0] == p[0]
  {
    [p[0], c * p[1] - s * p[2], s * p[1] + c * p[2]]
  }

  /** The rolled point (x, y, z), written out: (c x - s y, s x + c y, z). */
  function Rolled(c: real, s: real, p: seq<real>): (q: seq<real>)
    requires |p| == 3
    ensures |q| == 3 && q[2] == p[2]
  {
    [c * p[0] - s * p[1], s * p[0] + c * p[1], p[2]]
  }

  /** Applying the 2D rotation matrix gives the written-out rotation. */
  lemma Rotation2DApplies(c: real, s: real, p: seq<real>)
    requires |p| == 2
    ensures Algebra.Transform(Rotation2D(c, s), p) == Rotated2D(c, s, p)
  {
    var g := Rotation2D(c, s);
    var t := Algebra.Transform(g, p);
    assert g.Row(0) == [c, -s] && g.Row(1) == [s, c];
    Algebra.Dot2(g.Row(0), p);
    Algebra.Dot2(g.Row(1), p);
    assert t[0] == Algebra.Dot(g.Row(0), p) && t[1] == Algebra.Dot(g.Row(1), p);
    var q := Rotated2D(c, s, p);
    assert t[0] == q[0];
    assert t[1] == q[1];
    assert t == q;
  }

  /** Applying the yaw matrix gives the written-out yaw. */
  lemma YawApplies(c: real, s: real, p: seq<real>)
    requires |p| == 3
    ensures Algebra.Transform(YawGrid(c, s), p) == Yawed(c, s, p)
  {
    var g := YawGrid(c, s);
    var t := Algebra.Transform(g, p);
    assert g.Row(0) == [c, 0.0, -s] && g.Row(1) == [0.0, 1.0, 0.0] && g.Row(2) == [s, 0.0, c];
    Algebra.Dot3(g.Row(0), p);
    Algebra.Dot3(g.Row(1), p);
    Algebra.Dot3(g.Row(2), p);
    assert t[0] == Algebra.Dot(g.Row(0), p) && t[1] == Algebra.Dot(g.Row(1), p) && t[2] == Algebra.Dot(g.Row(2), p);
    var q := Yawed(c, s, p);
    assert t[0] == q[0];
    assert t[1] == q[1];
    assert t[2] == q[2];
    assert t == q;
  }

  /** Applying the pitch matrix gives the written-out pitch. */
  lemma PitchApplies(c: real, s: real, p: seq<real>)
    requires |p| == 3
    ensures Algebra.Transform(PitchGrid(c, s), p) == Pitched(c, s, p)
  {
    var g := PitchGrid(c, s);
    var t := Algebra.Transform(g, p);
    assert g.Row(0) == [1.0, 0.0, 0.0] && g.Row(1) == [0.0, c, -s] && g.Row(2) == [0.0, s, c];
    Algebra.Dot3(g.Row(0), p);
    Algebra.Dot3(g.Row(1), p);
    Algebra.Dot3(g.Row(2), p);
    assert t[0] == Algebra.Dot(g.Row(0), p) && t[1] == Algebra.Dot(g.Row(1), p) && t[2] == Algebra.Dot(g.Row(2), p);
    var q := Pitched(c, s, p);
    assert t[0] == q[0];
    assert t[1] == q[1];
    assert t[2] == q[2];
    assert t == q;
  }

  /** Applying the roll matrix gives the written-out roll. */
  lemma RollApplies(c: real, s: real, p: seq<real>)
    requires |p| == 3
    ensures Algebra.Transform(RollGrid(c, s), p) == Rolled(c, s, p)
  {
    var g := RollGrid(c, s);
    var t := Algebra.Transform(g, p);
    assert g.Row(0) == [c, -s, 0.0] && g.Row(1) == [s, c, 0.0] && g.Row(2) == [0.0, 0.0, 1.0];
    Algebra.Dot3(g.Row(0), p);
    Algebra.Dot3(g.Row(1), p);
    Algebra.Dot3(g.Row(2), p);
    assert t[0] == Algebra.Dot(g.Row(0), p) && t[1] == Algebra.Dot(g.Row(1), p) && t[2] == Algebra.Dot(g.Row(2), p);
    var q := Rolled(c, s, p);
    assert t[0] == q[0];
    assert t[1] == q[1];
    assert t[2] == q[2];
    assert t == q;
  }

  /** With c = 1 and s = 0 (angle zero) each rotation matrix leaves every point where it is. */
  lemma ZeroAngleIsIdentity(p2: seq<real>, p3: seq<real>)
    requires |p2| == 2 && |p3| == 3
    ensures Algebra.Transform(Rotation2D(1.0, 0.0), p2) == p2
    ensures Algebra.Transform(YawGrid(1.0, 0.0), p3) == p3
    ensures Algebra.Transform(PitchGrid(1.0, 0.0), p3) == p3
    ensures Algebra.Transform(RollGrid(1.0, 0.0), p3) == p3
  {
    Rotation2DApplies(1.0, 0.0, p2);
    YawApplies(1.0, 0.0, p3);
    PitchApplies(1.0, 0.0, p3);
    RollApplies(1.0, 0.0, p3);
  }

  /** Rotating the pair (x, y) by (c, s) and then by (c, -s) restores it when c^2 + s^2 = 1. */
  lemma UndoPair(c: real, s: real, x: real, y: real)
    requires c * c + s * s == 1.0
    ensures c * (c * x - s * y) - (-s) * (s * x + c * y) == x
    ensures (-s) * (c * x - s * y) + c * (s * x + c * y) == y
  {
    assert c * (c * x - s * y) - (-s) * (s * x + c * y) == (c * c + s * s) * x;
    assert (-s) * (c * x - s * y) + c * (s * x + c * y) == (c * c + s * s) * y;
  }

  /** Rotating back by the opposite angle (c, -s) undoes a 2D rotation when c^2 + s^2 = 1. */
  lemma Rotate2DUndo(c: real, s: real, p: seq<real>)
    requires c * c + s * s == 1.0 && |p| == 2
    ensures Rotated2D(c, -s, Rotated2D(c, s, p)) == p
  {
    UndoPair(c, s, p[0], p[1]);
    var r := Rotated2D(c, -s, Rotated2D(c, s, p));
    assert r[0] == p[0] && r[1] == p[1];
  }

  /** Yawing back by (c, -s) undoes a yaw when c^2 + s^2 = 1. */
  lemma YawUndo(c: real, s: real, p: seq<real>)
    requires c * c + s * s == 1.0 && |p| == 3
    ensures Yawed(c, -s, Yawed(c, s, p)) == p
  {
    UndoPair(c, s, p[0], p[2]);
    var r := Yawed(c, -s, Yawed(c, s, p));
    assert r[0] == p[0] && r[1] == p[1] && r[2] == p[2];
  }

  /** Pitching back by (c, -s) undoes a pitch when c^2 + s^2 = 1. */
  lemma PitchUndo(c: real, s: real, p: seq<real>)
    requires c * c + s * s == 1.0 && |p| == 3
    ensures Pitched(c, -s, Pitched(c, s, p)) == p
  {
    UndoPair(c, s, p[1], p[2]);
    var r := Pitched(c, -s, Pitched(c, s, p));
    assert r[0] == p[0] && r[1] == p[1] && r[2] == p[2];
  }

  /** Rolling back by (c, -s) undoes a roll when c^2 + s^2 = 1. */
  lemma RollUndo(c: real, s: real, p: seq<real>)
    requires c * c + s * s == 1.0 && |p| == 3
    ensures Rolled(c, -s, Rolled(c, s, p)) == p
  {
    UndoPair(c, s, p[0], p[1]);
    var r := Rolled(c, -s, Rolled(c, s, p));
    assert r[0] == p[0] && r[1] == p[1] && r[2] == p[2];
  }

  /** A new vector holding (a, b, d), as the library's three-argument Vector constructor call. */
  method NewVector3(a: real, b: real, d: real) returns (v: Vector)
    ensures fresh(v) && fresh(v.vector) && v.Valid() && v.dim == 3
    ensures v.Elements() == [a, b, d]
  {
    var elements := new real[3];
    elements[0], elements[1], elements[2] := a, b, d;
    v := new Vector.FromElements(elements);
  }

  /** A new matrix holding the 3 x 3 grid g, built from its three rows as Vectors, as the library does. */
  method MatrixOfGrid(g: Algebra.Grid) returns (m: Matrix)
    requires g.Valid() && g.rows == 3 && g.cols == 3
    ensures fresh(m) && m.Valid() && m.rows == 3 && m.cols == 3
    ensures m.Value() == g
  {
    var r0, r1, r2 := g.Row(0), g.Row(1), g.Row(2);
    var v0 := NewVector3(r0[0], r0[1], r0[2]);
    var v1 := NewVector3(r1[0], r1[1], r1[2]);
    var v2 := NewVector3(r2[0], r2[1], r2[2]);
    assert v0.Elements() == r0 && v1.Elements() == r1 && v2.Elements() == r2;
    m := new Matrix.FromVectors([v0, v1, v2]);
    assert m.Value().cells == [r0, r1, r2] == g.cells;
  }

  /** The 2D rotation matrix for the angle whose cosine is c and sine is s. */
  method RotationMatrix2D(c: real, s: real) returns (m: Matrix)
    ensures fresh(m) && m.Valid() && m.Value() == Rotation2D(c, s)
  {
    m := new Matrix.FromRaw(Rotation2D(c, s).cells);
  }

  /** The vector rotated by the angle (c, s), or None unless it is 2-dimensional. */
  method Rotate2DVector(v: Vector, c: real, s: real) returns (r: Option<Vector>)
    requires v.Valid()
    ensures r.None? <==> v.dim != 2
    ensures r.Some? ==> fresh(r.value) && r.value.Valid() && r.value.dim == 2
                        && |v.Elements()| == 2
                        && r.value.Elements() == Rotated2D(c, s, v.Elements())
  {
    if v.dim != 2 {
      return None;
    }
    var m := RotationMatrix2D(c, s);
    r := m.TransformVector(v);
    Rotation2DApplies(c, s, v.Elements());
  }

  /** The vector yawed by the angle (c, s), or None unless it is 3-dimensional; component 1 is kept. */
  method Yaw(v: Vector, c: real, s: real) returns (r: Option<Vector>)
    requires v.Valid()
    ensures r.None? <==> v.dim != 3
    ensures r.Some? ==> fresh(r.value) && r.value.Valid() && r.value.dim == 3
                        && |v.Elements()| == 3
                        && r.value.Elements() == Yawed(c, s, v.Elements())
                        && r.value.Elements()[1] == v.Elements()[1]
  {
    if v.dim != 3 {
      return None;
    }
    var m := MatrixOfGrid(YawGrid(c, s));
    r := m.TransformVector(v);
    YawApplies(c, s, v.Elements());
  }

  /** The vector pitched by the angle (c, s), or None unless it is 3-dimensional; component 0 is kept. */
  method Pitch(v: Vector, c: real, s: real) returns (r: Option<Vector>)
    requires v.Valid()
    ensures r.None? <==> v.dim != 3
    ensures r.Some? ==> fresh(r.value) && r.value.Valid() && r.value.dim == 3
                        && |v.Elements()| == 3
                        && r.value.Elements() == Pitched(c, s, v.Elements())
                        && r.value.Elements()[0] == v.Elements()[0]
  {
    if v.dim != 3 {
      return None;
    }
    var m := MatrixOfGrid(PitchGrid(c, s));
    r := m.TransformVector(v);
    PitchApplies(c, s, v.Elements());
  }

  /** The vector rolled by the angle (c, s), or None unless it is 3-dimensional; component 2 is kept. */
  method Roll(v: Vector, c: real, s: real) returns (r: Option<Vector>)
    requires v.Valid()
    ensures r.None? <==> v.dim != 3
    ensures r.Some? ==> fresh(r.value) && r.value.Valid() && r.value.dim == 3
                        && |v.Elements()| == 3
                        && r.value.Elements() == Rolled(c, s, v.Elements())
                        && r.value.Elements()[2] == v.Elements()[2]
  {
    if v.dim != 3 {
      return None;
    }
    var m := MatrixOfGrid(RollGrid(c, s));
    r := m.TransformVector(v);
    RollApplies(c, s, v.Elements());
  }
}
