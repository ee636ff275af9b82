/** One IFS transform: preMap, then a nonlinear variation, then postMap, with
    the colour this transform blends into the running colour and the weight
    it blends with. */
module FlameMappings {
  import opened Geometry

  /** Names one nonlinear function of the external variation catalogue. */
  datatype Variation = Variation(name: string)

  /** How the catalogue evaluates a variation at a point. It is a pure function
      of its arguments and is supplied by the caller. */
  type VariationFn = (Variation, Vec2) -> Vec2

  datatype FlameMapping = FlameMapping(
    preMap: AffineMap,
    variation: Variation,
    postMap: AffineMap,
    col: Color,
    colorSpeed: real)

  /** The combined transform: postMap(variation(preMap(p))). */
  function Map(fm: FlameMapping, vary: VariationFn, p: Vec2): Vec2 {
    MapPoint(fm.postMap, vary(fm.variation, MapPoint(fm.preMap, p)))
  }

  /** The affine map that `editPreTrans` selects: preMap when true, else postMap. */
  function Selected(fm: FlameMapping, editPreTrans: bool): AffineMap {
    if editPreTrans then fm.preMap else fm.postMap
  }

  /** fm with the selected affine map replaced by aff and every other field kept. */
  function WithSelected(fm: FlameMapping, editPreTrans: bool, aff: AffineMap): (r: FlameMapping)
    ensures Selected(r, editPreTrans) == aff
    ensures Selected(r, !editPreTrans) == Selected(fm, !editPreTrans)
    ensures r.variation == fm.variation && r.col == fm.col && r.colorSpeed == fm.colorSpeed
  {
    if editPreTrans then fm.(preMap := aff) else fm.(postMap := aff)
  }
}
