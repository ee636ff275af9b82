/** Direct manipulation of one FlameMapping: FlameMapping::translate, ::scale
    and ::rotate.

    Each operation probes a copy of the mapping: it evaluates the whole mapping
    at the sample point p, then again with one of two parameters of the
    selected affine map nudged by Delta (each probe starting from the
    unperturbed copy), assembles the finite-difference Jacobian from the two
    difference quotients, and solves Jacobian * step = df with the Jacobian's
    inverse. Only then is the selected affine map of the receiver itself
    updated; nothing else about the mapping changes.

    The 2x2 inverse, the square root and cos/sin are caller-supplied Numerics:
    their floating-point behaviour is not modelled. */
module Edit {
  import opened Geometry
  import opened FlameMappings

  /** The absolute finite-difference step of every probe. */
  const Delta: real := 0.001

  /** The longest translation step one drag may apply. */
  const MaxLength: real := 2.0

  datatype Numerics = Numerics(
    inv: Mat2 -> Mat2,
    sqrt: real -> real,
    cos: real -> real,
    sin: real -> real)

  /** sqrt is the non-negative square root on non-negative reals. */
  ghost predicate ExactSqrt(num: Numerics) {
    forall x :: 0.0 <= x ==> 0.0 <= num.sqrt(x) && num.sqrt(x) * num.sqrt(x) == x
  }

  ghost predicate TrigAtZero(num: Numerics) {
    num.cos(0.0) == 1.0 && num.sin(0.0) == 0.0
  }

  ghost predicate Pythagorean(num: Numerics) {
    forall t :: num.cos(t) * num.cos(t) + num.sin(t) * num.sin(t) == 1.0
  }

  // ---------------------------------------------------------------- the shared fit

  /** (r1 - r0) / Delta: the difference quotient of one probe. */
  function Quotient(r1: Vec2, r0: Vec2): Vec2 {
    Vec2((r1.x - r0.x) / Delta, (r1.y - r0.y) / Delta)
  }

  /** The 2x2 matrix whose columns are the two difference quotients. */
  function Jacobian(d1: Vec2, d2: Vec2): Mat2 {
    Mat2(d1.x, d2.x, d1.y, d2.y)
  }

  /** The mapping evaluated at p with its selected affine map replaced by aff:
      a probe on a fresh copy of fm. */
  function Probe(fm: FlameMapping, vary: VariationFn, p: Vec2, editPreTrans: bool, aff: AffineMap): Vec2 {
    Map(WithSelected(fm, editPreTrans, aff), vary, p)
  }

  /** The parameter step that solves Jacobian * step = df, where the Jacobian is
      estimated from the two probes aff1 and aff2 of the selected affine map. */
  function FitStep(fm: FlameMapping, vary: VariationFn, num: Numerics, p: Vec2, df: Vec2,
                   editPreTrans: bool, aff1: AffineMap, aff2: AffineMap): (step: Vec2)
    ensures df == Origin ==> step == Origin
  {
    var r0 := Map(fm, vary, p);
    var r1 := Probe(fm, vary, p, editPreTrans, aff1);
    var r2 := Probe(fm, vary, p, editPreTrans, aff2);
    Apply(num.inv(Jacobian(Quotient(r1, r0), Quotient(r2, r0))), df)
  }

  // ---------------------------------------------------------------- translate

  /** dc scaled down to length MaxLength when it is longer. */
  function Clamp(num: Numerics, dc: Vec2): Vec2 {
    var len := num.sqrt(LengthSq(dc));
    if len > MaxLength then ScaleVec(MaxLength / len, dc) else dc
  }

  /** A step no longer than MaxLength is kept; a longer one is replaced by the
      vector of length exactly MaxLength in the same direction. */
  lemma ClampBound(num: Numerics, dc: Vec2)
    requires ExactSqrt(num)
    ensures LengthSq(Clamp(num, dc)) <= MaxLength * MaxLength
    ensures LengthSq(dc) <= MaxLength * MaxLength ==> Clamp(num, dc) == dc
    ensures LengthSq(dc) > MaxLength * MaxLength ==>
      LengthSq(Clamp(num, dc)) == MaxLength * MaxLength &&
      exists k: real :: 0.0 < k < 1.0 && Clamp(num, dc) == ScaleVec(k, dc)
  {
    var s := LengthSq(dc);
    assert 0.0 <= s;
    var len := num.sqrt(s);
    assert 0.0 <= len && len * len == s;
    if len > MaxLength {
      assert s > 4.0 by {
        assert len * len > 2.0 * len > 4.0;
      }
      var k := MaxLength / len;
      assert 0.0 < k < 1.0;
      assert k * len == 2.0;
      calc {
        LengthSq(ScaleVec(k, dc));
        (k * dc.x) * (k * dc.x) + (k * dc.y) * (k * dc.y);
        k * k * s;
        (k * len) * (k * len);
        4.0;
      }
      assert Clamp(num, dc) == ScaleVec(k, dc);
    } else {
      assert s <= 4.0 by {
        assert len * len <= 2.0 * len <= 4.0;
      }
    }
  }

  /** The clamped translation step of FlameMapping::translate: its two probes
      move the selected translation by Delta along x, then along y. */
  function TranslateStep(fm: FlameMapping, vary: VariationFn, num: Numerics, p: Vec2, df: Vec2, editPreTrans: bool): Vec2 {
    var aff := Selected(fm, editPreTrans);
    var probeX := aff.(c := Vec2(aff.c.x + Delta, aff.c.y));
    var probeY := aff.(c := Vec2(aff.c.x, aff.c.y + Delta));
    Clamp(num, FitStep(fm, vary, num, p, df, editPreTrans, probeX, probeY))
  }

  /** The mapping after translate: only the selected translation moves, by at
      most MaxLength; its matrix, the other affine map, the variation, the colour
      and colorSpeed are kept. */
  function Translated(fm: FlameMapping, vary: VariationFn, num: Numerics, p: Vec2, df: Vec2, editPreTrans: bool): (r: FlameMapping)
    ensures Selected(r, !editPreTrans) == Selected(fm, !editPreTrans)
    ensures r.variation == fm.variation && r.col == fm.col && r.colorSpeed == fm.colorSpeed
    ensures Selected(r, editPreTrans).m == Selected(fm, editPreTrans).m
  {
    var aff := Selected(fm, editPreTrans);
    WithSelected(fm, editPreTrans, aff.(c := Add(aff.c, TranslateStep(fm, vary, num, p, df, editPreTrans))))
  }

  /** translate moves the selected translation by at most MaxLength. */
  lemma TranslateMoveBound(fm: FlameMapping, vary: VariationFn, num: Numerics, p: Vec2, df: Vec2, editPreTrans: bool)
    requires ExactSqrt(num)
    ensures LengthSq(Sub(Selected(Translated(fm, vary, num, p, df, editPreTrans), editPreTrans).c,
                         Selected(fm, editPreTrans).c)) <= MaxLength * MaxLength
  {
    var aff := Selected(fm, editPreTrans);
    var dc := TranslateStep(fm, vary, num, p, df, editPreTrans);
    ClampBound(num, FitStep(fm, vary, num, p, df, editPreTrans,
      aff.(c := Vec2(aff.c.x + Delta, aff.c.y)), aff.(c := Vec2(aff.c.x, aff.c.y + Delta))));
    assert Sub(Add(aff.c, dc), aff.c) == dc;
  }

  /** Dragging by nothing leaves the mapping as it was. */
  lemma TranslateStill(fm: FlameMapping, vary: VariationFn, num: Numerics, p: Vec2, editPreTrans: bool)
    requires ExactSqrt(num)
    ensures Translated(fm, vary, num, p, Origin, editPreTrans) == fm
  {
    var aff := Selected(fm, editPreTrans);
    ClampBound(num, Origin);
    assert TranslateStep(fm, vary, num, p, Origin, editPreTrans) == Origin;
    assert aff.(c := Add(aff.c, Origin)) == aff;
  }

  // ---------------------------------------------------------------- scale

  /** m with its first column (a, c) multiplied by kx and its second (b, d) by ky. */
  function ScaleColumns(m: Mat2, kx: real, ky: real): Mat2 {
    Mat2(m.a * kx, m.b * ky, m.c * kx, m.d * ky)
  }

  /** The fractional column scales of FlameMapping::scale: its two probes scale
      the first column, then (from a fresh copy) the second, by 1 + Delta. */
  function ScaleStep(fm: FlameMapping, vary: VariationFn, num: Numerics, p: Vec2, df: Vec2, editPreTrans: bool): Vec2 {
    var aff := Selected(fm, editPreTrans);
    var probeA := aff.(m := ScaleColumns(aff.m, 1.0 + Delta, 1.0));
    var probeB := aff.(m := ScaleColumns(aff.m, 1.0, 1.0 + Delta));
    FitStep(fm, vary, num, p, df, editPreTrans, probeA, probeB)
  }

  /** The mapping after scale: the selected matrix has its columns rescaled,
      its translation and everything else about the mapping are kept. */
  function Scaled(fm: FlameMapping, vary: VariationFn, num: Numerics, p: Vec2, df: Vec2, editPreTrans: bool): (r: FlameMapping)
    ensures Selected(r, !editPreTrans) == Selected(fm, !editPreTrans)
    ensures r.variation == fm.variation && r.col == fm.col && r.colorSpeed == fm.colorSpeed
    ensures Selected(r, editPreTrans).c == Selected(fm, editPreTrans).c
  {
    var aff := Selected(fm, editPreTrans);
    var d := ScaleStep(fm, vary, num, p, df, editPreTrans);
    WithSelected(fm, editPreTrans, aff.(m := ScaleColumns(aff.m, 1.0 + d.x, 1.0 + d.y)))
  }

  /** Entries a and c of the selected matrix are multiplied by one common factor
      and b and d by another, so the determinant changes by the product of the
      two factors. */
  lemma ScaledColumns(fm: FlameMapping, vary: VariationFn, num: Numerics, p: Vec2, df: Vec2, editPreTrans: bool)
    ensures var m := Selected(fm, editPreTrans).m;
            var d := ScaleStep(fm, vary, num, p, df, editPreTrans);
            var m' := Selected(Scaled(fm, vary, num, p, df, editPreTrans), editPreTrans).m;
            m' == ScaleColumns(m, 1.0 + d.x, 1.0 + d.y) && Det(m') == (1.0 + d.x) * (1.0 + d.y) * Det(m)
  {
    var m := Selected(fm, editPreTrans).m;
    var d := ScaleStep(fm, vary, num, p, df, editPreTrans);
    var kx, ky := 1.0 + d.x, 1.0 + d.y;
    assert Selected(Scaled(fm, vary, num, p, df, editPreTrans), editPreTrans).m == ScaleColumns(m, kx, ky);
    ScaleColumnsFacts(m, kx, ky);
  }

  /** Scaling the columns keeps the direction of each column and scales the
      determinant by the product of the two factors. */
  lemma ScaleColumnsFacts(m: Mat2, kx: real, ky: real)
    ensures var m' := ScaleColumns(m, kx, ky);
            m'.a * m.c == m'.c * m.a && m'.b * m.d == m'.d * m.b && Det(m') == kx * ky * Det(m)
  {
    var m' := ScaleColumns(m, kx, ky);
    assert m'.a * m.c == m'.c * m.a by {
      assert (m.a * kx) * m.c == kx * (m.a * m.c);
      assert (m.c * kx) * m.a == kx * (m.a * m.c);
    }
    assert m'.b * m.d == m'.d * m.b by {
      assert (m.b * ky) * m.d == ky * (m.b * m.d);
      assert (m.d * ky) * m.b == ky * (m.b * m.d);
    }
    calc {
      Det(m');
      (m.a * kx) * (m.d * ky) - (m.b * ky) * (m.c * kx);
      kx * ky * (m.a * m.d - m.b * m.c);
    }
  }

  /** Dragging by nothing leaves the mapping as it was. */
  lemma ScaleStill(fm: FlameMapping, vary: VariationFn, num: Numerics, p: Vec2, editPreTrans: bool)
    ensures Scaled(fm, vary, num, p, Origin, editPreTrans) == fm
  {
    var aff := Selected(fm, editPreTrans);
    assert ScaleStep(fm, vary, num, p, Origin, editPreTrans) == Origin;
    assert ScaleColumns(aff.m, 1.0, 1.0) == aff.m;
  }

  // ---------------------------------------------------------------- rotate

  /** M22f(cos t, sin t, -sin t, cos t). */
  function Rotation(num: Numerics, theta: real): Mat2 {
    Mat2(num.cos(theta), num.sin(theta), -num.sin(theta), num.cos(theta))
  }

  /** The angle and uniform-scale steps of FlameMapping::rotate: its two probes
      left-multiply the selected matrix by the rotation by Delta, then (from a
      fresh copy) multiply it by 1 + Delta. */
  function RotateStep(fm: FlameMapping, vary: VariationFn, num: Numerics, p: Vec2, df: Vec2, editPreTrans: bool): Vec2 {
    var aff := Selected(fm, editPreTrans);
    var probeTheta := aff.(m := Mul(Rotation(num, Delta), aff.m));
    var probeScale := aff.(m := ScaleMat(1.0 + Delta, aff.m));
    FitStep(fm, vary, num, p, df, editPreTrans, probeTheta, probeScale)
  }

  /** The mapping after rotate: the selected matrix M becomes
      (1 + dscale) * Rotation(dtheta) * M; its translation and everything else
      about the mapping are kept. */
  function Rotated(fm: FlameMapping, vary: VariationFn, num: Numerics, p: Vec2, df: Vec2, editPreTrans: bool): (r: FlameMapping)
    ensures Selected(r, !editPreTrans) == Selected(fm, !editPreTrans)
    ensures r.variation == fm.variation && r.col == fm.col && r.colorSpeed == fm.colorSpeed
    ensures Selected(r, editPreTrans).c == Selected(fm, editPreTrans).c
  {
    var aff := Selected(fm, editPreTrans);
    var dts := RotateStep(fm, vary, num, p, df, editPreTrans);
    WithSelected(fm, editPreTrans, aff.(m := Mul(ScaleMat(1.0 + dts.y, Rotation(num, dts.x)), aff.m)))
  }

  /** With a true cosine and sine the rotation is area-preserving, so rotate
      changes the determinant of the selected matrix only through the uniform
      scale: by the factor (1 + dscale) squared. */
  lemma RotatedDet(fm: FlameMapping, vary: VariationFn, num: Numerics, p: Vec2, df: Vec2, editPreTrans: bool)
    requires Pythagorean(num)
    ensures var d := RotateStep(fm, vary, num, p, df, editPreTrans);
            Det(Selected(Rotated(fm, vary, num, p, df, editPreTrans), editPreTrans).m)
              == (1.0 + d.y) * (1.0 + d.y) * Det(Selected(fm, editPreTrans).m)
  {
    var m := Selected(fm, editPreTrans).m;
    var d := RotateStep(fm, vary, num, p, df, editPreTrans);
    var rot := Rotation(num, d.x);
    assert Det(rot) == 1.0 by {
      assert num.cos(d.x) * num.cos(d.x) + num.sin(d.x) * num.sin(d.x) == 1.0;
    }
    DetMul(ScaleMat(1.0 + d.y, rot), m);
    DetScale(1.0 + d.y, rot);
  }

  /** Dragging by nothing leaves the mapping as it was. */
  lemma RotateStill(fm: FlameMapping, vary: VariationFn, num: Numerics, p: Vec2, editPreTrans: bool)
    requires TrigAtZero(num)
    ensures Rotated(fm, vary, num, p, Origin, editPreTrans) == fm
  {
    var aff := Selected(fm, editPreTrans);
    assert RotateStep(fm, vary, num, p, Origin, editPreTrans) == Origin;
    assert Rotation(num, 0.0) == Identity;
    assert Mul(ScaleMat(1.0, Identity), aff.m) == aff.m;
  }

  // ---------------------------------------------------------------- the mapping edited in place

  /** A FlameMapping as an object whose fields the edit operations update in
      place; Value() is the mapping it currently holds. */
  class EditableMapping {
    var preMap: AffineMap
    var variation: Variation
    var postMap: AffineMap
    var col: Color
    var colorSpeed: real

    function Value(): FlameMapping
      reads this
    {
      FlameMapping(preMap, variation, postMap, col, colorSpeed)
    }

    constructor (fm: FlameMapping)
      ensures Value() == fm
    {
      preMap, variation, postMap, col, colorSpeed := fm.preMap, fm.variation, fm.postMap, fm.col, fm.colorSpeed;
    }

    /** Moves the selected translation so that the mapping's output at p moves by
        about df, at most MaxLength at a time. */
    method Translate(p: Vec2, df: Vec2, editPreTrans: bool, vary: VariationFn, num: Numerics)
      modifies this`preMap, this`postMap
      ensures Value() == Translated(old(Value()), vary, num, p, df, editPreTrans)
      ensures editPreTrans ==> postMap == old(postMap)
      ensures !editPreTrans ==> preMap == old(preMap)
    {
      var tmpMap := Value();
      ghost var fm := tmpMap;
      var aff := Selected(tmpMap, editPreTrans);
      ghost var aff0 := aff;
      var r0 := Map(tmpMap, vary, p);
      aff := aff.(c := aff.c.(x := aff.c.x + Delta));
      tmpMap := WithSelected(tmpMap, editPreTrans, aff);
      var r1 := Map(tmpMap, vary, p);
      assert r1 == Probe(fm, vary, p, editPreTrans, aff0.(c := Vec2(aff0.c.x + Delta, aff0.c.y)));
      aff := aff.(c := aff.c.(x := aff.c.x - Delta));
      aff := aff.(c := aff.c.(y := aff.c.y + Delta));
      // Undoing the x probe restores the copy exactly, so the y probe starts
      // from the unperturbed mapping.
      assert aff == aff0.(c := Vec2(aff0.c.x, aff0.c.y + Delta));
      tmpMap := WithSelected(tmpMap, editPreTrans, aff);
      var r2 := Map(tmpMap, vary, p);
      assert r2 == Probe(fm, vary, p, editPreTrans, aff0.(c := Vec2(aff0.c.x, aff0.c.y + Delta)));
      var dfdc := Jacobian(Quotient(r1, r0), Quotient(r2, r0));
      var dc := Apply(num.inv(dfdc), df);
      var len := num.sqrt(LengthSq(dc));
      if len > MaxLength {
        dc := ScaleVec(MaxLength / len, dc);
      }
      assert dc == TranslateStep(fm, vary, num, p, df, editPreTrans);
      if editPreTrans {
        preMap := preMap.(c := Add(preMap.c, dc));
      } else {
        postMap := postMap.(c := Add(postMap.c, dc));
      }
    }

    /** Rescales the two columns of the selected matrix so that the mapping's
        output at p moves by about df. */
    method Scale(p: Vec2, df: Vec2, editPreTrans: bool, vary: VariationFn, num: Numerics)
      modifies this`preMap, this`postMap
      ensures Value() == Scaled(old(Value()), vary, num, p, df, editPreTrans)
      ensures editPreTrans ==> postMap == old(postMap)
      ensures !editPreTrans ==> preMap == old(preMap)
    {
      var tmpMap := Value();
      ghost var fm := tmpMap;
      var aff := Selected(tmpMap, editPreTrans);
      ghost var aff0 := aff;
      var r0 := Map(tmpMap, vary, p);
      aff := aff.(m := aff.m.(a := aff.m.a * (1.0 + Delta)));
      aff := aff.(m := aff.m.(c := aff.m.c * (1.0 + Delta)));
      assert aff == aff0.(m := ScaleColumns(aff0.m, 1.0 + Delta, 1.0));
      tmpMap := WithSelected(tmpMap, editPreTrans, aff);
      var r1 := Map(tmpMap, vary, p);
      assert r1 == Probe(fm, vary, p, editPreTrans, aff0.(m := ScaleColumns(aff0.m, 1.0 + Delta, 1.0)));
      tmpMap := Value();
      aff := Selected(tmpMap, editPreTrans);
      aff := aff.(m := aff.m.(b := aff.m.b * (1.0 + Delta)));
      aff := aff.(m := aff.m.(d := aff.m.d * (1.0 + Delta)));
      assert aff == aff0.(m := ScaleColumns(aff0.m, 1.0, 1.0 + Delta));
      tmpMap := WithSelected(tmpMap, editPreTrans, aff);
      var r2 := Map(tmpMap, vary, p);
      assert r2 == Probe(fm, vary, p, editPreTrans, aff0.(m := ScaleColumns(aff0.m, 1.0, 1.0 + Delta)));
      var dfdad := Jacobian(Quotient(r1, r0), Quotient(r2, r0));
      var dAd := Apply(num.inv(dfdad), df);
      assert dAd == ScaleStep(fm, vary, num, p, df, editPreTrans);
      var thisAff := if editPreTrans then preMap else postMap;
      thisAff := thisAff.(m := thisAff.m.(a := thisAff.m.a * (1.0 + dAd.x)));
      thisAff := thisAff.(m := thisAff.m.(c := thisAff.m.c * (1.0 + dAd.x)));
      thisAff := thisAff.(m := thisAff.m.(b := thisAff.m.b * (1.0 + dAd.y)));
      thisAff := thisAff.(m := thisAff.m.(d := thisAff.m.d * (1.0 + dAd.y)));
      assert thisAff == aff0.(m := ScaleColumns(aff0.m, 1.0 + dAd.x, 1.0 + dAd.y));
      if editPreTrans {
        preMap := thisAff;
      } else {
        postMap := thisAff;
      }
    }

    /** Rotates and uniformly rescales the selected matrix so that the mapping's
        output at p moves by about df. */
    method Rotate(p: Vec2, df: Vec2, editPreTrans: bool, vary: VariationFn, num: Numerics)
      modifies this`preMap, this`postMap
      ensures Value() == Rotated(old(Value()), vary, num, p, df, editPreTrans)
      ensures editPreTrans ==> postMap == old(postMap)
      ensures !editPreTrans ==> preMap == old(preMap)
    {
      var tmpMap := Value();
      ghost var fm := tmpMap;
      var aff := Selected(tmpMap, editPreTrans);
      ghost var aff0 := aff;
      var r0 := Map(tmpMap, vary, p);
      aff := aff.(m := Mul(Mat2(num.cos(Delta), num.sin(Delta), -num.sin(Delta), num.cos(Delta)), aff.m));
      tmpMap := WithSelected(tmpMap, editPreTrans, aff);
      var r1 := Map(tmpMap, vary, p);
      assert r1 == Probe(fm, vary, p, editPreTrans, aff0.(m := Mul(Rotation(num, Delta), aff0.m)));
      var dfdtheta := Quotient(r1, r0);
      tmpMap := Value();
      aff := Selected(tmpMap, editPreTrans);
      aff := aff.(m := ScaleMat(1.0 + Delta, aff.m));
      tmpMap := WithSelected(tmpMap, editPreTrans, aff);
      var r2 := Map(tmpMap, vary, p);
      assert r2 == Probe(fm, vary, p, editPreTrans, aff0.(m := ScaleMat(1.0 + Delta, aff0.m)));
      var dfdscale := Quotient(r2, r0);
      var dfdts := Jacobian(dfdtheta, dfdscale);
      var dts := Apply(num.inv(dfdts), df);
      assert dts == RotateStep(fm, vary, num, p, df, editPreTrans);
      var dtheta := dts.x;
      var dscale := dts.y;
      var rot := Mat2(num.cos(dtheta), num.sin(dtheta), -num.sin(dtheta), num.cos(dtheta));
      if editPreTrans {
        preMap := preMap.(m := Mul(ScaleMat(1.0 + dscale, rot), preMap.m));
      } else {
        postMap := postMap.(m := Mul(ScaleMat(1.0 + dscale, rot), postMap.m));
      }
    }
  }
}
