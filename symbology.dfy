/**
 * Proportional-symbol styling of a place by its population (`rad`, `col` and the marker
 * options built in `pointToLayer`, js/app.js). Populations are finite JavaScript numbers,
 * here reals; `Math.sqrt` is the parameter `sqrt`.
 */
module Symbology {
  import opened JsValues
  import Properties

  /** Lower bounds of the colour bands, lowest first. */
  const Thresholds: seq<real> := [5000.0, 25000.0, 100000.0, 250000.0, 1000000.0]

  /** `Palette[k]` is the fill of band k: band 0 is below 5,000, band 5 is 1,000,000 and up. */
  const Palette: seq<string> := ["#a3a3a3", "#84cc16", "#22c55e", "#0ea5e9", "#2563eb", "#6a00ff"]

  const MinRadius: real := 2.5
  const MaxRadius: real := 18.0
  const RadiusScale: real := 0.01

  /** `col(pop)`: thresholds are tried from the highest down and the first that is met wins. */
  function Col(pop: real): (c: string)
    ensures c in Palette
  {
    if pop >= 1000000.0 then "#6a00ff"
    else if pop >= 250000.0 then "#2563eb"
    else if pop >= 100000.0 then "#0ea5e9"
    else if pop >= 25000.0 then "#22c55e"
    else if pop >= 5000.0 then "#84cc16"
    else "#a3a3a3"
  }

  /** The number of thresholds in `ts` that `pop` reaches. */
  function CountReached(ts: seq<real>, pop: real): (n: nat)
    ensures n <= |ts|
  {
    if ts == [] then 0
    else CountReached(ts[..|ts| - 1], pop) + (if ts[|ts| - 1] <= pop then 1 else 0)
  }

  /** The band of a population, defined independently of `Col`: how many thresholds it reaches. */
  function Band(pop: real): (k: nat)
    ensures k < |Palette|
  {
    CountReached(Thresholds, pop)
  }

  /** Band k is the half-open interval from its own threshold up to the next one. */
  predicate InBand(pop: real, k: nat)
    requires k < |Palette|
  {
    (k == 0 || Thresholds[k - 1] <= pop) && (k == |Thresholds| || pop < Thresholds[k])
  }

  /** The palette has six distinct colours, so a colour names its band. */
  lemma PaletteDistinct()
    ensures |Palette| == 6
    ensures forall i, j | 0 <= i < j < |Palette| :: Palette[i] != Palette[j]
  {
  }

  /** Over ascending thresholds, reaching threshold i means reaching every lower one too. */
  lemma {:induction false} CountReachedIsPrefix(ts: seq<real>, pop: real, k: nat)
    requires forall i, j | 0 <= i < j < |ts| :: ts[i] < ts[j]
    requires k <= |ts|
    ensures CountReached(ts, pop) == k <==>
              (k == 0 || ts[k - 1] <= pop) && (k == |ts| || pop < ts[k])
  {
    if ts != [] {
      var init := ts[..|ts| - 1];
      assert forall i | 0 <= i < |init| :: init[i] == ts[i];
      if k < |ts| {
        CountReachedIsPrefix(init, pop, k);
      }
      if k > 0 {
        CountReachedIsPrefix(init, pop, k - 1);
      }
    }
  }

  /** A population lies in exactly one band: `Band(pop)`. */
  lemma BandIsUnique(pop: real, k: nat)
    requires k < |Palette|
    ensures InBand(pop, k) <==> k == Band(pop)
  {
    CountReachedIsPrefix(Thresholds, pop, k);
  }

  /** `col` gives exactly the colour of the population's band. */
  lemma ColIsBandColour(pop: real)
    ensures Col(pop) == Palette[Band(pop)]
  {
    var k := Band(pop);
    BandIsUnique(pop, k);
  }

  /** Exhaustive and exclusive buckets: `col(pop)` is colour k exactly when pop is in band k. */
  lemma ColPicksBand(pop: real, k: nat)
    requires k < |Palette|
    ensures Col(pop) == Palette[k] <==> InBand(pop, k)
  {
    ColIsBandColour(pop);
    BandIsUnique(pop, k);
    PaletteDistinct();
  }

  lemma {:induction false} CountReachedMonotone(ts: seq<real>, p: real, q: real)
    requires p <= q
    ensures CountReached(ts, p) <= CountReached(ts, q)
  {
    if ts != [] {
      CountReachedMonotone(ts[..|ts| - 1], p, q);
    }
  }

  /** A larger population never gets a lower band, hence never a lower colour in the legend. */
  lemma ColMonotone(p: real, q: real)
    requires p <= q
    ensures Band(p) <= Band(q)
    ensures Col(p) == Palette[Band(p)] && Col(q) == Palette[Band(q)]
  {
    CountReachedMonotone(Thresholds, p, q);
    ColIsBandColour(p);
    ColIsBandColour(q);
  }

  function Max(a: real, b: real): real { if a >= b then a else b }
  function Min(a: real, b: real): real { if a <= b then a else b }

  /** `sqrt` behaves as the square root on the non-negative reals. */
  ghost predicate IsSqrt(sqrt: real -> real) {
    forall x: real | 0.0 <= x :: 0.0 <= sqrt(x) && sqrt(x) * sqrt(x) == x
  }

  /**
   * `rad(pop)`: the square root of the population (negative counts as 0) scaled by 0.01,
   * clamped to [2.5, 18].
   */
  function Rad(pop: real, sqrt: real -> real): (r: real)
    ensures MinRadius <= r <= MaxRadius
  {
    var raw := sqrt(Max(pop, 0.0)) * RadiusScale;
    Max(MinRadius, Min(MaxRadius, raw))
  }

  lemma SquareStrictlyMonotone(a: real, b: real)
    requires 0.0 <= b < a
    ensures b * b < a * a
  {
    var d := a - b;
    assert a * a == (b + d) * (b + d) == b * b + 2.0 * b * d + d * d;
    assert d * d > 0.0;
    assert b * d >= 0.0;
  }

  /** The square root is monotone: it follows from `IsSqrt`. */
  lemma SqrtMonotone(sqrt: real -> real, x: real, y: real)
    requires IsSqrt(sqrt)
    requires 0.0 <= x <= y
    ensures sqrt(x) <= sqrt(y)
  {
    if sqrt(y) < sqrt(x) {
      SquareStrictlyMonotone(sqrt(x), sqrt(y));
    }
  }

  /** `rad` is non-decreasing in the population. */
  lemma RadMonotone(p: real, q: real, sqrt: real -> real)
    requires IsSqrt(sqrt)
    requires p <= q
    ensures Rad(p, sqrt) <= Rad(q, sqrt)
  {
    SqrtMonotone(sqrt, Max(p, 0.0), Max(q, 0.0));
  }

  /** Every population up to 62,500 (including every negative one) gets the minimum radius. */
  lemma RadFloor(pop: real, sqrt: real -> real)
    requires IsSqrt(sqrt)
    ensures Rad(pop, sqrt) == MinRadius <==> pop <= 62500.0
  {
    var x := Max(pop, 0.0);
    if sqrt(x) < 250.0 {
      SquareStrictlyMonotone(250.0, sqrt(x));
    } else if sqrt(x) > 250.0 {
      SquareStrictlyMonotone(sqrt(x), 250.0);
    }
  }

  /** Every population of 3,240,000 or more gets the maximum radius, and only those. */
  lemma RadCap(pop: real, sqrt: real -> real)
    requires IsSqrt(sqrt)
    ensures Rad(pop, sqrt) == MaxRadius <==> pop >= 3240000.0
  {
    var x := Max(pop, 0.0);
    if sqrt(x) < 1800.0 {
      SquareStrictlyMonotone(1800.0, sqrt(x));
    } else if sqrt(x) > 1800.0 {
      SquareStrictlyMonotone(sqrt(x), 1800.0);
    }
  }

  /**
   * Between the clamps the symbol is proportional: the marker's squared radius, hence its
   * area, is the population times 0.0001.
   */
  lemma RadProportional(pop: real, sqrt: real -> real)
    requires IsSqrt(sqrt)
    requires 62500.0 <= pop <= 3240000.0
    ensures Rad(pop, sqrt) * Rad(pop, sqrt) == pop * RadiusScale * RadiusScale
  {
    RadFloor(pop, sqrt);
    RadCap(pop, sqrt);
  }

  /** The circle-marker options that depend on the feature: radius and fill colour. */
  datatype MarkerStyle = MarkerStyle(radius: real, fillColor: string)

  /**
   * The style `pointToLayer` gives feature `f`: radius and colour both come from the one
   * resolved population, so a feature without any population field is drawn grey at the
   * minimum radius.
   */
  function PointStyle(f: JsValue, sqrt: real -> real, parse: string -> JsNumber): (st: MarkerStyle)
    ensures st.radius == Rad(Properties.GetPop(Properties.FeatureProps(f), parse), sqrt)
    ensures MinRadius <= st.radius <= MaxRadius
    ensures st.fillColor == Palette[Band(Properties.GetPop(Properties.FeatureProps(f), parse))]
    ensures IsSqrt(sqrt) && Properties.FeatureProps(f) == map[] ==>
              st == MarkerStyle(MinRadius, Palette[0])
  {
    var pop := Properties.GetPop(Properties.FeatureProps(f), parse);
    assert IsSqrt(sqrt) && pop <= 0.0 ==> Rad(pop, sqrt) == MinRadius by {
      if IsSqrt(sqrt) { RadFloor(pop, sqrt); }
    }
    ColIsBandColour(pop);
    MarkerStyle(Rad(pop, sqrt), Col(pop))
  }

  /**
   * Of two features, the one with the larger resolved population is drawn at least as large
   * and in at least as high a colour band.
   */
  lemma PointStyleOrdered(f: JsValue, g: JsValue, sqrt: real -> real, parse: string -> JsNumber)
    requires IsSqrt(sqrt)
    requires Properties.GetPop(Properties.FeatureProps(f), parse)
               <= Properties.GetPop(Properties.FeatureProps(g), parse)
    ensures PointStyle(f, sqrt, parse).radius <= PointStyle(g, sqrt, parse).radius
    ensures Band(Properties.GetPop(Properties.FeatureProps(f), parse))
              <= Band(Properties.GetPop(Properties.FeatureProps(g), parse))
  {
    var p := Properties.GetPop(Properties.FeatureProps(f), parse);
    var q := Properties.GetPop(Properties.FeatureProps(g), parse);
    RadMonotone(p, q, sqrt);
    ColMonotone(p, q);
  }
}
