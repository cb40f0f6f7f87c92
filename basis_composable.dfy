/** The basis composable: four slider values and the reactive record of
    calculated results, recalculated from the sliders on demand. */
module BasisComposable {
  import opened Wrappers
  import opened Basis

  class BasisTransformation {
    /** The slider refs: e1 = (sliderE1x, sliderE1y), e2 = (sliderE2x, sliderE2y). */
    var sliderE1x: real
    var sliderE1y: real
    var sliderE2x: real
    var sliderE2y: real
    /** The reactive record of calculated results. */
    var calculated: Calculated

    /** The sliders start at the standard basis, the record at its literal
        initial value, and the composable runs one calculation. */
    constructor ()
      ensures sliderE1x == 1.0 && sliderE1y == 0.0 && sliderE2x == 0.0 && sliderE2y == 1.0
      ensures calculated == Calculated(1.0, Some(IDENTITY), Vec2(1.0, 0.0), Vec2(0.0, 1.0),
                                       Some(Vec2(1.0, 0.0)), Some(Vec2(0.0, 1.0)))
    {
      sliderE1x, sliderE1y, sliderE2x, sliderE2y := 1.0, 0.0, 0.0, 1.0;
      calculated := Calculated(1.0, Some(IDENTITY), Vec2(1.0, 0.0), Vec2(0.0, 1.0),
                               Some(Vec2(1.0, 0.0)), Some(Vec2(0.0, 1.0)));
      new;
      PerformCalculations();
      StandardBasisIsIdentity(sliderE1x, sliderE1y, sliderE2x, sliderE2y);
    }

    /** Overwrites every field of the record from the current slider values
        alone; the sliders are not changed. */
    method PerformCalculations()
      modifies this
      ensures sliderE1x == old(sliderE1x) && sliderE1y == old(sliderE1y)
      ensures sliderE2x == old(sliderE2x) && sliderE2y == old(sliderE2y)
      ensures calculated == Recompute(sliderE1x, sliderE1y, sliderE2x, sliderE2y)
    {
      var a, b, c, d := sliderE1x, sliderE1y, sliderE2x, sliderE2y;
      calculated := calculated.(e1 := Vec2(a, b), e2 := Vec2(c, d));
      var det := a * d - b * c;
      calculated := calculated.(detM := det);
      ghost var e1, e2 := Vec2(a, b), Vec2(c, d);
      assert Det(e1, e2) == det;
      if Abs(det) < DET_EPSILON {
        calculated := calculated.(mInv := None, epsilon1 := None, epsilon2 := None);
        assert Inverse(e1, e2) == None;
      } else {
        var invDet := 1.0 / det;
        var mInv := Mat2(Vec2(invDet * d, invDet * (-c)), Vec2(invDet * (-b), invDet * a));
        calculated := calculated.(mInv := Some(mInv));
        calculated := calculated.(epsilon1 := Some(mInv.row0), epsilon2 := Some(mInv.row1));
        assert mInv == ScaledAdjugate(e1, e2, 1.0 / Det(e1, e2));
        assert Inverse(e1, e2) == Some(mInv);
      }
      assert calculated == Calculated(Det(e1, e2), Inverse(e1, e2), e1, e2,
                                      DualBasis(Inverse(e1, e2)).0, DualBasis(Inverse(e1, e2)).1);
    }
  }
}
