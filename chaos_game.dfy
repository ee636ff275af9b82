/** The chaos-game point generator (CPUFlameEngine::generate).

    A running point starts at the origin and a running colour at white. Each
    iteration picks one map with a draw from the random source, moves the point
    through that map and blends the map's colour into the running colour with
    the map's own colorSpeed. The first Discard iterations only let the point
    settle; every later iteration writes one output point: the running point
    seen through the final map, with the running colour. */
module ChaosGame {
  import opened Geometry
  import opened FlameMappings
  import opened FlameFile

  /** One output point: position and colour. */
  datatype IFSPoint = IFSPoint(pos: Vec2, col: Color)

  /** The running point and running colour of the iteration. */
  datatype State = State(p: Vec2, col: Color)

  /** Number of burn-in iterations whose results are not written. */
  const Discard: nat := 20

  /** rand() % nMaps for a non-negative draw: the index of the chosen map. */
  function SelectMap(draw: nat, nMaps: nat): (idx: nat)
    requires nMaps > 0
    ensures idx < nMaps
    ensures draw < nMaps ==> idx == draw
  {
    draw % nMaps
  }

  /** One iteration with map m: only m moves the point, and m's colour is blended
      in with m's own colorSpeed as the weight. */
  function Step(st: State, m: FlameMapping, vary: VariationFn): State {
    State(Map(m, vary, st.p), Blend(m.colorSpeed, m.col, st.col))
  }

  /** The running state after the first k iterations, iteration j using draws[j]. */
  function Run(maps: seq<FlameMapping>, draws: seq<nat>, vary: VariationFn, k: nat): State
    requires |maps| > 0 && k <= |draws|
  {
    if k == 0 then State(Origin, White)
    else Step(Run(maps, draws, vary, k - 1), maps[SelectMap(draws[k - 1], |maps|)], vary)
  }

  /** Output slot i is written by iteration Discard + i: the running point after
      that iteration seen through the final map, and the running colour as is. */
  function OutputPoint(finalMap: FlameMapping, maps: seq<FlameMapping>, draws: seq<nat>, vary: VariationFn, i: nat): IFSPoint
    requires |maps| > 0 && Discard + i < |draws|
  {
    var st := Run(maps, draws, vary, Discard + i + 1);
    IFSPoint(Map(finalMap, vary, st.p), st.col)
  }

  /** Fills ptData with ptData.Length points, drawing one map index per
      iteration from draws (the random source). Runs ptData.Length + Discard
      iterations; `log` lists, in order, the output slot written at each
      writing iteration. */
  method Generate(ptData: array<IFSPoint>, flameMaps: FlameMaps, draws: seq<nat>, vary: VariationFn)
    returns (ghost iterations: nat, ghost log: seq<nat>)
    requires |flameMaps.maps| > 0
    requires |draws| >= ptData.Length + Discard
    modifies ptData
    ensures iterations == ptData.Length + Discard
    ensures |log| == ptData.Length && forall k :: 0 <= k < |log| ==> log[k] == k
    ensures forall i :: 0 <= i < ptData.Length ==>
              ptData[i] == OutputPoint(flameMaps.finalMap, flameMaps.maps, draws, vary, i)
  {
    var nMaps := |flameMaps.maps|;
    var p := Origin;
    var discard := Discard as int;
    var col := White;
    var nPoints := ptData.Length;
    var ptr := 0;
    iterations, log := 0, [];
    var i := -discard;
    while i < nPoints
      invariant -discard <= i <= nPoints
      invariant ptr == if i < 0 then 0 else i
      invariant iterations == i + discard
      invariant |log| == ptr && forall k :: 0 <= k < ptr ==> log[k] == k
      invariant State(p, col) == Run(flameMaps.maps, draws, vary, i + discard)
      invariant forall k :: 0 <= k < ptr ==>
                  ptData[k] == OutputPoint(flameMaps.finalMap, flameMaps.maps, draws, vary, k)
    {
      var mapIdx := SelectMap(draws[i + discard], nMaps);
      var m := flameMaps.maps[mapIdx];
      p := Map(m, vary, p);
      col := Blend(m.colorSpeed, m.col, col);
      if i >= 0 {
        ptData[ptr] := IFSPoint(Map(flameMaps.finalMap, vary, p), col);
        log := log + [ptr];
        ptr := ptr + 1;
      }
      i := i + 1;
      iterations := iterations + 1;
    }
  }

  // ---------------------------------------------------------------- properties of the iteration

  /** The final map never feeds back into the iteration. That is by construction:
      Run, the running state, is not given the final map at all. What this lemma
      records is the consequence for the points Generate writes: two final maps
      give the same colour in every slot, and the positions they give are those
      two maps applied to one and the same running point. */
  lemma FinalMapOnlyShapesOutput(f1: FlameMapping, f2: FlameMapping, maps: seq<FlameMapping>, draws: seq<nat>, vary: VariationFn, i: nat)
    requires |maps| > 0 && Discard + i < |draws|
    ensures OutputPoint(f1, maps, draws, vary, i).col == OutputPoint(f2, maps, draws, vary, i).col
    ensures var q := Run(maps, draws, vary, Discard + i + 1).p;
            OutputPoint(f1, maps, draws, vary, i).pos == Map(f1, vary, q) &&
            OutputPoint(f2, maps, draws, vary, i).pos == Map(f2, vary, q)
  {
  }

  /** Every colour component lies in [0, 1]. */
  predicate InGamut(c: Color) {
    0.0 <= c.r <= 1.0 && 0.0 <= c.g <= 1.0 && 0.0 <= c.b <= 1.0
  }

  /** When every map's colour is in gamut and every colorSpeed is a weight in
      [0, 1], the running colour never leaves the gamut. */
  lemma {:induction false} RunColorInGamut(maps: seq<FlameMapping>, draws: seq<nat>, vary: VariationFn, k: nat)
    requires |maps| > 0 && k <= |draws|
    requires forall j :: 0 <= j < |maps| ==> InGamut(maps[j].col) && 0.0 <= maps[j].colorSpeed <= 1.0
    ensures InGamut(Run(maps, draws, vary, k).col)
  {
    if k > 0 {
      RunColorInGamut(maps, draws, vary, k - 1);
      var m := maps[SelectMap(draws[k - 1], |maps|)];
      var c := Blend(m.colorSpeed, m.col, Run(maps, draws, vary, k - 1).col);
      assert Between(c.r, m.col.r, Run(maps, draws, vary, k - 1).col.r);
    }
  }

  /** Hence every generated point has an in-gamut colour. */
  lemma OutputColorInGamut(finalMap: FlameMapping, maps: seq<FlameMapping>, draws: seq<nat>, vary: VariationFn, i: nat)
    requires |maps| > 0 && Discard + i < |draws|
    requires forall j :: 0 <= j < |maps| ==> InGamut(maps[j].col) && 0.0 <= maps[j].colorSpeed <= 1.0
    ensures InGamut(OutputPoint(finalMap, maps, draws, vary, i).col)
  {
    RunColorInGamut(maps, draws, vary, Discard + i + 1);
  }

  /** When every map fixes the origin, the running point never leaves it. */
  lemma {:induction false} RunStaysAtFixedOrigin(maps: seq<FlameMapping>, draws: seq<nat>, vary: VariationFn, k: nat)
    requires |maps| > 0 && k <= |draws|
    requires forall j :: 0 <= j < |maps| ==> Map(maps[j], vary, Origin) == Origin
    ensures Run(maps, draws, vary, k).p == Origin
  {
    if k > 0 {
      RunStaysAtFixedOrigin(maps, draws, vary, k - 1);
    }
  }

  /** So when the final map fixes the origin too, every generated position is
      the origin, whatever the draws. */
  lemma OutputAtFixedOrigin(finalMap: FlameMapping, maps: seq<FlameMapping>, draws: seq<nat>, vary: VariationFn, i: nat)
    requires |maps| > 0 && Discard + i < |draws|
    requires forall j :: 0 <= j < |maps| ==> Map(maps[j], vary, Origin) == Origin
    requires Map(finalMap, vary, Origin) == Origin
    ensures OutputPoint(finalMap, maps, draws, vary, i).pos == Origin
  {
    RunStaysAtFixedOrigin(maps, draws, vary, Discard + i + 1);
  }

  function Pow(x: real, k: nat): real {
    if k == 0 then 1.0 else x * Pow(x, k - 1)
  }

  /** The colour a fraction t of the way from target back towards start. */
  function Toward(target: Color, start: Color, t: real): Color {
    Color(target.r + t * (start.r - target.r),
          target.g + t * (start.g - target.g),
          target.b + t * (start.b - target.b))
  }

  lemma BlendToward(s: real, target: Color, start: Color, t: real)
    ensures Blend(s, target, Toward(target, start, t)) == Toward(target, start, (1.0 - s) * t)
  {
    var u := Toward(target, start, t);
    assert s * target.r + (1.0 - s) * u.r == target.r + (1.0 - s) * t * (start.r - target.r);
    assert s * target.g + (1.0 - s) * u.g == target.g + (1.0 - s) * t * (start.g - target.g);
    assert s * target.b + (1.0 - s) * u.b == target.b + (1.0 - s) * t * (start.b - target.b);
  }

  /** With a single map, the running colour after k iterations has closed the gap
      from white to that map's colour by the factor (1 - colorSpeed)^k: the
      exponential moving blend converges geometrically towards the map's colour. */
  lemma {:induction false} SingleMapColor(m: FlameMapping, draws: seq<nat>, vary: VariationFn, k: nat)
    requires k <= |draws|
    ensures Run([m], draws, vary, k).col == Toward(m.col, White, Pow(1.0 - m.colorSpeed, k))
  {
    if k == 0 {
      assert Toward(m.col, White, 1.0) == White;
    } else {
      SingleMapColor(m, draws, vary, k - 1);
      var t := Pow(1.0 - m.colorSpeed, k - 1);
      SingleMapStep(m, draws, vary, k, t);
      assert Pow(1.0 - m.colorSpeed, k) == (1.0 - m.colorSpeed) * t;
      assert Toward(m.col, White, (1.0 - m.colorSpeed) * t) == Toward(m.col, White, Pow(1.0 - m.colorSpeed, k));
    }
  }

  /** With a single map, one more iteration shrinks the remaining gap to white
      by the factor 1 - colorSpeed. */
  lemma SingleMapStep(m: FlameMapping, draws: seq<nat>, vary: VariationFn, k: nat, t: real)
    requires 0 < k <= |draws|
    requires Run([m], draws, vary, k - 1).col == Toward(m.col, White, t)
    ensures Run([m], draws, vary, k).col == Toward(m.col, White, (1.0 - m.colorSpeed) * t)
  {
    SingleMapRun(m, draws, vary, k);
    BlendToward(m.colorSpeed, m.col, White, t);
  }

  lemma SingleMapRun(m: FlameMapping, draws: seq<nat>, vary: VariationFn, k: nat)
    requires 0 < k <= |draws|
    ensures Run([m], draws, vary, k).col == Blend(m.colorSpeed, m.col, Run([m], draws, vary, k - 1).col)
  {
    assert [m][SelectMap(draws[k - 1], 1)] == m;
  }

  /** With a single map of colorSpeed 1, every generated colour is exactly that
      map's colour. */
  lemma SingleFullSpeedMapColor(finalMap: FlameMapping, m: FlameMapping, draws: seq<nat>, vary: VariationFn, i: nat)
    requires Discard + i < |draws| && m.colorSpeed == 1.0
    ensures OutputPoint(finalMap, [m], draws, vary, i).col == m.col
  {
    SingleMapColor(m, draws, vary, Discard + i + 1);
    assert Pow(1.0 - m.colorSpeed, Discard + i + 1) == 0.0;
  }
}
