/** The p5 basis sketch: closure state holding the primal basis vectors,
    the dual basis vectors, det M and M^-1, plus four sliders. Each frame
    copies the sliders into the primal basis, recalculates, and draws the
    dual grid and vectors only when det M is a number above 0.001 in size. */
module BasisSketch {
  import opened Wrappers
  import opened Basis

  class BasisSketch {
    /** e1, e2, epsilon1 and epsilon2 exist (they are created together). */
    var vectorsCreated: bool
    var e1: Vec2
    var e2: Vec2
    /** None stands for the vector (NaN, NaN). */
    var epsilon1: Option<Vec2>
    var epsilon2: Option<Vec2>
    /** None stands for NaN. */
    var detM: Option<real>
    var mInv: Option<Mat2>
    /** The four sliders exist. */
    var slidersCreated: bool
    var sliderE1x: real
    var sliderE1y: real
    var sliderE2x: real
    var sliderE2y: real

    /** The sliders are created after the vectors they are initialised from. */
    predicate Valid()
      reads this
    {
      slidersCreated ==> vectorsCreated
    }

    /** Before setup: det M and M^-1 are NaN, nothing else exists yet. */
    constructor ()
      ensures Valid()
      ensures !vectorsCreated && !slidersCreated && detM.None? && mInv.None?
    {
      vectorsCreated, slidersCreated := false, false;
      e1, e2 := Vec2(0.0, 0.0), Vec2(0.0, 0.0);
      epsilon1, epsilon2 := None, None;
      detM, mInv := None, None;
      sliderE1x, sliderE1y, sliderE2x, sliderE2y := 0.0, 0.0, 0.0, 0.0;
    }

    /** The primal basis becomes the standard basis; det M, M^-1 and the
        dual basis become NaN. */
    method SetBasisToStandard()
      modifies this
      ensures vectorsCreated && e1 == Vec2(1.0, 0.0) && e2 == Vec2(0.0, 1.0)
      ensures epsilon1.None? && epsilon2.None? && detM.None? && mInv.None?
      ensures slidersCreated == old(slidersCreated)
      ensures sliderE1x == old(sliderE1x) && sliderE1y == old(sliderE1y)
      ensures sliderE2x == old(sliderE2x) && sliderE2y == old(sliderE2y)
    {
      e1 := Vec2(1.0, 0.0);
      e2 := Vec2(0.0, 1.0);
      epsilon1 := None;
      epsilon2 := None;
      vectorsCreated := true;
      detM := None;
      mInv := None;
    }

    /** Existing sliders are moved to the components of e1 and e2. */
    method UpdateSlidersFromBasis()
      requires Valid()
      modifies this
      ensures old(slidersCreated) ==>
        sliderE1x == e1.x && sliderE1y == e1.y && sliderE2x == e2.x && sliderE2y == e2.y
      ensures !old(slidersCreated) ==>
        sliderE1x == old(sliderE1x) && sliderE1y == old(sliderE1y)
        && sliderE2x == old(sliderE2x) && sliderE2y == old(sliderE2y)
      ensures vectorsCreated == old(vectorsCreated) && slidersCreated == old(slidersCreated)
      ensures e1 == old(e1) && e2 == old(e2) && epsilon1 == old(epsilon1) && epsilon2 == old(epsilon2)
      ensures detM == old(detM) && mInv == old(mInv)
    {
      if slidersCreated {
        sliderE1x := e1.x;
        sliderE1y := e1.y;
        sliderE2x := e2.x;
        sliderE2y := e2.y;
      }
    }

    /** The reset button: the standard basis, with the sliders following it. */
    method ResetBasis()
      requires Valid()
      modifies this
      ensures Valid()
      ensures vectorsCreated && e1 == Vec2(1.0, 0.0) && e2 == Vec2(0.0, 1.0)
      ensures epsilon1.None? && epsilon2.None? && detM.None? && mInv.None?
      ensures slidersCreated == old(slidersCreated)
      ensures old(slidersCreated) ==>
        sliderE1x == 1.0 && sliderE1y == 0.0 && sliderE2x == 0.0 && sliderE2y == 1.0
    {
      SetBasisToStandard();
      UpdateSlidersFromBasis();
    }

    /** Slider creation: each slider starts at the matching component of the
        current primal basis. */
    method CreateSliders()
      requires vectorsCreated
      modifies this
      ensures Valid() && slidersCreated && vectorsCreated
      ensures sliderE1x == e1.x && sliderE1y == e1.y && sliderE2x == e2.x && sliderE2y == e2.y
      ensures e1 == old(e1) && e2 == old(e2) && epsilon1 == old(epsilon1) && epsilon2 == old(epsilon2)
      ensures detM == old(detM) && mInv == old(mInv)
    {
      sliderE1x := e1.x;
      sliderE1y := e1.y;
      sliderE2x := e2.x;
      sliderE2y := e2.y;
      slidersCreated := true;
    }

    method Setup()
      modifies this
      ensures Valid() && vectorsCreated && slidersCreated
      ensures e1 == Vec2(1.0, 0.0) && e2 == Vec2(0.0, 1.0)
      ensures sliderE1x == 1.0 && sliderE1y == 0.0 && sliderE2x == 0.0 && sliderE2y == 1.0
      ensures epsilon1.None? && epsilon2.None? && detM.None? && mInv.None?
    {
      SetBasisToStandard();
      CreateSliders();
    }

    /** The user drags the sliders to new values. */
    method MoveSliders(v1x: real, v1y: real, v2x: real, v2y: real)
      requires slidersCreated
      modifies this
      ensures sliderE1x == v1x && sliderE1y == v1y && sliderE2x == v2x && sliderE2y == v2y
      ensures vectorsCreated == old(vectorsCreated) && slidersCreated == old(slidersCreated)
      ensures e1 == old(e1) && e2 == old(e2) && epsilon1 == old(epsilon1) && epsilon2 == old(epsilon2)
      ensures detM == old(detM) && mInv == old(mInv)
    {
      sliderE1x, sliderE1y, sliderE2x, sliderE2y := v1x, v1y, v2x, v2y;
    }

    /** The primal basis takes the slider values; the sliders must exist. */
    method UpdateBasisVectorsFromSliders()
      requires slidersCreated
      modifies this
      ensures vectorsCreated ==> e1 == Vec2(sliderE1x, sliderE1y) && e2 == Vec2(sliderE2x, sliderE2y)
      ensures !vectorsCreated ==> e1 == old(e1) && e2 == old(e2)
      ensures vectorsCreated == old(vectorsCreated) && slidersCreated == old(slidersCreated)
      ensures sliderE1x == old(sliderE1x) && sliderE1y == old(sliderE1y)
      ensures sliderE2x == old(sliderE2x) && sliderE2y == old(sliderE2y)
      ensures epsilon1 == old(epsilon1) && epsilon2 == old(epsilon2)
      ensures detM == old(detM) && mInv == old(mInv)
    {
      var v1x, v1y, v2x, v2y := sliderE1x, sliderE1y, sliderE2x, sliderE2y;
      if vectorsCreated {
        e1 := Vec2(v1x, v1y);
        e2 := Vec2(v2x, v2y);
      }
    }

    /** det M, M^-1 and the dual basis from the current primal basis; nothing
        changes before the vectors exist. */
    method CalculateTransformations()
      modifies this
      ensures !old(vectorsCreated) ==> unchanged(this)
      ensures old(vectorsCreated) ==>
        && detM == Some(Det(e1, e2))
        && mInv == Inverse(e1, e2)
        && (epsilon1, epsilon2) == DualBasis(Inverse(e1, e2))
      ensures vectorsCreated == old(vectorsCreated) && slidersCreated == old(slidersCreated)
      ensures e1 == old(e1) && e2 == old(e2)
      ensures sliderE1x == old(sliderE1x) && sliderE1y == old(sliderE1y)
      ensures sliderE2x == old(sliderE2x) && sliderE2y == old(sliderE2y)
    {
      if !vectorsCreated {
        return;
      }
      var a, c := e1.x, e2.x;
      var b, d := e1.y, e2.y;
      var det := a * d - b * c;
      detM := Some(det);
      assert Det(e1, e2) == det;
      if Abs(det) < DET_EPSILON {
        mInv := None;
        epsilon1 := None;
        epsilon2 := None;
      } else {
        var invDet := 1.0 / det;
        var m := Mat2(Vec2(invDet * d, invDet * (-c)), Vec2(invDet * (-b), invDet * a));
        mInv := Some(m);
        epsilon1 := Some(m.row0);
        epsilon2 := Some(m.row1);
        assert m == ScaledAdjugate(e1, e2, 1.0 / Det(e1, e2));
      }
    }

    /** One frame: sliders into the primal basis, then the recalculation; the
        result says whether the dual grid and vectors are drawn. The frame
        computes what the basis composable computes from the same sliders. */
    method Draw() returns (dualDrawn: bool)
      requires Valid() && slidersCreated
      modifies this
      ensures Valid() && vectorsCreated && slidersCreated
      ensures sliderE1x == old(sliderE1x) && sliderE1y == old(sliderE1y)
      ensures sliderE2x == old(sliderE2x) && sliderE2y == old(sliderE2y)
      ensures detM.Some?
      ensures Recompute(sliderE1x, sliderE1y, sliderE2x, sliderE2y)
           == Calculated(detM.value, mInv, e1, e2, epsilon1, epsilon2)
      ensures dualDrawn <==> Abs(Det(e1, e2)) > DET_EPSILON
      ensures dualDrawn ==> epsilon1.Some? && epsilon2.Some?
    {
      UpdateBasisVectorsFromSliders();
      CalculateTransformations();
      dualDrawn := DualDrawn(detM);
    }
  }

  /** A frame started from setup without touching the sliders shows the
      standard basis, and its dual is drawn. */
  lemma FirstFrameDrawsDual(a: real, b: real, c: real, d: real)
    requires a == 1.0 && b == 0.0 && c == 0.0 && d == 1.0
    ensures Abs(Det(Vec2(a, b), Vec2(c, d))) > DET_EPSILON
    ensures Recompute(a, b, c, d).epsilon1 == Some(Vec2(1.0, 0.0))
  {
    StandardBasisIsIdentity(a, b, c, d);
  }
}
