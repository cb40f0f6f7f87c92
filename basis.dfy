/** The 2x2 primal/dual basis computation shared by the basis composable and
    the basis sketch: M has the primal basis vectors e1 = (a, b) and
    e2 = (c, d) as its columns, its inverse is the adjugate divided by the
    determinant, and the dual basis vectors are the rows of the inverse.
    A NaN-filled vector or matrix is modelled as None. */
module Basis {
  import opened Wrappers

  datatype Vec2 = Vec2(x: real, y: real)

  /** A 2x2 matrix by rows: [[row0.x, row0.y], [row1.x, row1.y]]. */
  datatype Mat2 = Mat2(row0: Vec2, row1: Vec2)

  /** Below this absolute determinant the basis counts as degenerate. */
  const DET_EPSILON: real := 0.001

  const IDENTITY := Mat2(Vec2(1.0, 0.0), Vec2(0.0, 1.0))

  function Abs(x: real): real { if x < 0.0 then -x else x }

  function Dot(u: Vec2, v: Vec2): real { u.x * v.x + u.y * v.y }

  /** M = [e1 e2], the primal basis vectors as columns. */
  function Matrix(e1: Vec2, e2: Vec2): Mat2 {
    Mat2(Vec2(e1.x, e2.x), Vec2(e1.y, e2.y))
  }

  function Mul(m: Mat2, n: Mat2): Mat2 {
    Mat2(Vec2(m.row0.x * n.row0.x + m.row0.y * n.row1.x, m.row0.x * n.row0.y + m.row0.y * n.row1.y),
         Vec2(m.row1.x * n.row0.x + m.row1.y * n.row1.x, m.row1.x * n.row0.y + m.row1.y * n.row1.y))
  }

  /** det M = a*d - b*c */
  function Det(e1: Vec2, e2: Vec2): real { e1.x * e2.y - e1.y * e2.x }

  /** The adjugate of M scaled by invDet. */
  function ScaledAdjugate(e1: Vec2, e2: Vec2, invDet: real): Mat2 {
    Mat2(Vec2(invDet * e2.y, invDet * (-e2.x)), Vec2(invDet * (-e1.y), invDet * e1.x))
  }

  /** The inverse of M as the source forms it, or None (all NaN) when
      |det M| < 0.001. */
  function Inverse(e1: Vec2, e2: Vec2): (r: Option<Mat2>)
    ensures r.None? <==> Abs(Det(e1, e2)) < DET_EPSILON
    ensures r.Some? ==> Mul(Matrix(e1, e2), r.value) == IDENTITY && Mul(r.value, Matrix(e1, e2)) == IDENTITY
  {
    if Abs(Det(e1, e2)) < DET_EPSILON then None
    else
      AdjugateInverts(e1, e2);
      Some(ScaledAdjugate(e1, e2, 1.0 / Det(e1, e2)))
  }

  lemma AdjugateInverts(e1: Vec2, e2: Vec2)
    requires Det(e1, e2) != 0.0
    ensures var inv := ScaledAdjugate(e1, e2, 1.0 / Det(e1, e2));
      Mul(Matrix(e1, e2), inv) == IDENTITY && Mul(inv, Matrix(e1, e2)) == IDENTITY
  {
    var a, b, c, d := e1.x, e1.y, e2.x, e2.y;
    var det := Det(e1, e2);
    var invDet := 1.0 / det;
    assert invDet * det == 1.0;
    assert a * (invDet * d) + c * (invDet * (-b)) == invDet * det;
    assert a * (invDet * (-c)) + c * (invDet * a) == 0.0;
    assert b * (invDet * d) + d * (invDet * (-b)) == 0.0;
    assert b * (invDet * (-c)) + d * (invDet * a) == invDet * det;
    assert (invDet * d) * a + (invDet * (-c)) * b == invDet * det;
    assert (invDet * d) * c + (invDet * (-c)) * d == 0.0;
    assert (invDet * (-b)) * a + (invDet * a) * b == 0.0;
    assert (invDet * (-b)) * c + (invDet * a) * d == invDet * det;
  }

  /** The record every recalculation writes: the primal basis, det M, M^-1
      and the dual basis (None where the source stores NaN). */
  datatype Calculated = Calculated(
    detM: real, mInv: Option<Mat2>, e1: Vec2, e2: Vec2,
    epsilon1: Option<Vec2>, epsilon2: Option<Vec2>)

  /** The dual basis vectors are the rows of the inverse. */
  function DualBasis(mInv: Option<Mat2>): (Option<Vec2>, Option<Vec2>) {
    match mInv
    case None => (None, None)
    case Some(m) => (Some(m.row0), Some(m.row1))
  }

  /** A full recalculation from the four slider values a, b, c, d. */
  function Recompute(a: real, b: real, c: real, d: real): (r: Calculated)
    ensures r.e1 == Vec2(a, b) && r.e2 == Vec2(c, d)
    ensures r.detM == a * d - b * c
    ensures r.mInv.None? <==> Abs(a * d - b * c) < DET_EPSILON
    ensures r.mInv.None? ==> r.epsilon1.None? && r.epsilon2.None?
    ensures r.mInv.Some? ==> r.epsilon1 == Some(r.mInv.value.row0) && r.epsilon2 == Some(r.mInv.value.row1)
  {
    var e1, e2 := Vec2(a, b), Vec2(c, d);
    var mInv := Inverse(e1, e2);
    var (epsilon1, epsilon2) := DualBasis(mInv);
    Calculated(Det(e1, e2), mInv, e1, e2, epsilon1, epsilon2)
  }

  /** Whether the dual grid and the dual vectors are drawn: det M is a number
      and |det M| > 0.001. */
  predicate DualDrawn(detM: Option<real>) {
    detM.Some? && Abs(detM.value) > DET_EPSILON
  }

  // ----- lemmas -----

  /** Whenever the dual basis is defined it is biorthogonal to the primal
      basis: eps^i . e_j is 1 when i == j and 0 otherwise. */
  lemma DualBasisBiorthogonal(a: real, b: real, c: real, d: real)
    ensures var r := Recompute(a, b, c, d);
      r.epsilon1.Some? ==>
        && Dot(r.epsilon1.value, r.e1) == 1.0 && Dot(r.epsilon1.value, r.e2) == 0.0
        && Dot(r.epsilon2.value, r.e1) == 0.0 && Dot(r.epsilon2.value, r.e2) == 1.0
  {
    var r := Recompute(a, b, c, d);
    if r.epsilon1.Some? {
      var m := Mul(r.mInv.value, Matrix(r.e1, r.e2));
      assert m == IDENTITY;
      assert Dot(r.epsilon1.value, r.e1) == m.row0.x;
      assert Dot(r.epsilon1.value, r.e2) == m.row0.y;
      assert Dot(r.epsilon2.value, r.e1) == m.row1.x;
      assert Dot(r.epsilon2.value, r.e2) == m.row1.y;
    }
  }

  /** Cramer's rule, first component: x det(a, b; c, d) from the two dot products. */
  lemma TimesDetX(a: real, b: real, c: real, d: real, x: real, y: real)
    ensures x * (a * d - b * c) == d * (x * a + y * b) - b * (x * c + y * d)
  {
  }

  /** Cramer's rule, second component. */
  lemma TimesDetY(a: real, b: real, c: real, d: real, x: real, y: real)
    ensures y * (a * d - b * c) == a * (x * c + y * d) - c * (x * a + y * b)
  {
  }

  lemma DivideOut(v: real, det: real, w: real)
    requires det != 0.0 && v * det == w
    ensures v == (1.0 / det) * w
  {
  }

  /** The dual basis is the only pair biorthogonal to a non-degenerate
      primal basis. */
  lemma DualBasisUnique(a: real, b: real, c: real, d: real, f1: Vec2, f2: Vec2)
    requires Abs(a * d - b * c) >= DET_EPSILON
    requires Dot(f1, Vec2(a, b)) == 1.0 && Dot(f1, Vec2(c, d)) == 0.0
    requires Dot(f2, Vec2(a, b)) == 0.0 && Dot(f2, Vec2(c, d)) == 1.0
    ensures Recompute(a, b, c, d).epsilon1 == Some(f1)
    ensures Recompute(a, b, c, d).epsilon2 == Some(f2)
  {
    var det := a * d - b * c;
    var invDet := 1.0 / det;
    TimesDetX(a, b, c, d, f1.x, f1.y);
    TimesDetY(a, b, c, d, f1.x, f1.y);
    TimesDetX(a, b, c, d, f2.x, f2.y);
    TimesDetY(a, b, c, d, f2.x, f2.y);
    DivideOut(f1.x, det, d);
    DivideOut(f1.y, det, -c);
    DivideOut(f2.x, det, -b);
    DivideOut(f2.y, det, a);
    assert Det(Vec2(a, b), Vec2(c, d)) == det;
    assert ScaledAdjugate(Vec2(a, b), Vec2(c, d), invDet) == Mat2(f1, f2);
  }

  /** At the standard basis every result is the identity case. */
  lemma StandardBasisIsIdentity(a: real, b: real, c: real, d: real)
    requires a == 1.0 && b == 0.0 && c == 0.0 && d == 1.0
    ensures Recompute(a, b, c, d)
         == Calculated(1.0, Some(IDENTITY), Vec2(1.0, 0.0), Vec2(0.0, 1.0), Some(Vec2(1.0, 0.0)), Some(Vec2(0.0, 1.0)))
  {
    assert 1.0 / 1.0 == 1.0;
  }

  /** Whenever the dual is drawn it has been computed. The converse fails at
      |det M| == 0.001, where the inverse exists but the strict test hides it. */
  lemma DualDrawnOnlyWhenComputed(e1: Vec2, e2: Vec2)
    ensures DualDrawn(Some(Det(e1, e2))) ==> Inverse(e1, e2).Some?
    ensures Abs(Det(e1, e2)) == DET_EPSILON ==> Inverse(e1, e2).Some? && !DualDrawn(Some(Det(e1, e2)))
  {
  }

  /** A basis on the threshold: e1 = (0.001, 0), e2 = (0, 1). */
  lemma ThresholdGapExample(e1: Vec2, e2: Vec2)
    requires e1 == Vec2(0.001, 0.0) && e2 == Vec2(0.0, 1.0)
    ensures Inverse(e1, e2).Some? && !DualDrawn(Some(Det(e1, e2)))
  {
    assert Det(e1, e2) == DET_EPSILON;
    DualDrawnOnlyWhenComputed(e1, e2);
  }
}
