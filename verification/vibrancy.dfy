/** `get_saturated_color`: picking one vibrant accent colour out of the
    prevalence-ordered dominant colours of an album cover. */
module Vibrancy {
  import opened ColorSpace
  import opened Optional
  import opened Histogram
  import opened Palette

  const MinValue := 0.15
  const MinSaturation := 0.15

  /** A swatch survives the filters and clears the pigmentation gate:
      not too dark, not near-white, and saturated enough. */
  predicate Pigmented(e: Swatch) {
    var hsv := RgbToHsv(e.color);
    && !(hsv.v < MinValue)
    && !(hsv.s < 0.1 && hsv.v > 0.9)
    && hsv.s >= MinSaturation
  }

  /** The weighted score: saturation squared (weight 4.0), prevalence
      (weight 0.3 on a 0-100 scale) and a brightness bonus peaking at 0.7. */
  function Score(e: Swatch): real {
    HsvScore(RgbToHsv(e.color), e.pct)
  }

  function HsvScore(hsv: Hsv, pct: real): real {
    var brightness := 1.0 - Abs(hsv.v - 0.7) * 0.5;
    hsv.s * hsv.s * 4.0 + pct * 0.3 / 100.0 + brightness * 0.7
  }

  /** What the scan sees of each swatch: its score when it is pigmented. */
  function Ratings(colors: seq<Swatch>): (rs: seq<Option<real>>)
    ensures |rs| == |colors|
    ensures forall i :: 0 <= i < |colors| ==> (rs[i].Some? <==> Pigmented(colors[i]))
    ensures forall i :: 0 <= i < |colors| && rs[i].Some? ==> rs[i].value == Score(colors[i])
  {
    seq(|colors|, i requires 0 <= i < |colors| =>
      if Pigmented(colors[i]) then Some(Score(colors[i])) else None)
  }

  /** Rating `x` can displace a running maximum `m`. */
  predicate Beats(x: Option<real>, m: real) {
    x.Some? && x.value > m
  }

  /** Among the first `n` ratings, `best` scores above zero, no rated
      entry scores more, and every earlier rated entry scores less. */
  predicate FirstBest(rs: seq<Option<real>>, best: int, n: int) {
    && 0 <= best < n <= |rs|
    && Beats(rs[best], 0.0)
    && (forall j :: 0 <= j < n && rs[j].Some? ==> rs[j].value <= rs[best].value)
    && (forall j :: 0 <= j < best && rs[j].Some? ==> rs[j].value < rs[best].value)
  }

  /** No entry among the first `n` can displace the initial maximum of 0. */
  predicate NoneBeatsZero(rs: seq<Option<real>>, n: int)
    requires 0 <= n <= |rs|
  {
    forall j :: 0 <= j < n ==> !Beats(rs[j], 0.0)
  }

  /** The scan state after `k` entries: still on the default, or on the
      first best so far with its score as the running maximum. */
  predicate ScanState(rs: seq<Option<real>>, k: int, maxScore: real, best: int) {
    && 0 <= k <= |rs|
    && ((NoneBeatsZero(rs, k) && maxScore == 0.0 && best == 0)
        || (FirstBest(rs, best, k) && maxScore == rs[best].value))
  }

  /** One step of the scan keeps the scan state. */
  lemma ScanStep(rs: seq<Option<real>>, k: int, maxScore: real, best: int)
    requires ScanState(rs, k, maxScore, best) && k < |rs|
    ensures Beats(rs[k], maxScore) ==> ScanState(rs, k + 1, rs[k].value, k)
    ensures !Beats(rs[k], maxScore) ==> ScanState(rs, k + 1, maxScore, best)
  {
  }

  /** The loop of `get_saturated_color` from entry `k` on: the index of the
      colour it returns. */
  function BestFrom(rs: seq<Option<real>>, k: int, maxScore: real, best: int): (r: int)
    requires ScanState(rs, k, maxScore, best)
    ensures NoneBeatsZero(rs, |rs|) ==> r == 0
    ensures !NoneBeatsZero(rs, |rs|) ==> FirstBest(rs, r, |rs|)
    decreases |rs| - k
  {
    if k == |rs| then best
    else
      ScanStep(rs, k, maxScore, best);
      if Beats(rs[k], maxScore) then BestFrom(rs, k + 1, rs[k].value, k)
      else BestFrom(rs, k + 1, maxScore, best)
  }

  /** The highest-scoring pigmented swatch, the first of equal ones; with
      none scoring above zero, the first (most prevalent) swatch; white
      for an empty list. */
  function SaturatedColor(colors: seq<Swatch>): (c: Rgb)
    ensures |colors| == 0 ==> c == WhiteRgb
    ensures |colors| > 0 && NoneBeatsZero(Ratings(colors), |colors|) ==> c == colors[0].color
    ensures |colors| > 0 && !NoneBeatsZero(Ratings(colors), |colors|) ==>
      exists i :: FirstBest(Ratings(colors), i, |colors|) && c == colors[i].color
  {
    if |colors| == 0 then WhiteRgb
    else
      var rs := Ratings(colors);
      assert NoneBeatsZero(rs, 0);
      var i := BestFrom(rs, 0, 0.0, 0);
      colors[i].color
  }

  /** The near-white filter is subsumed by the pigmentation gate: a swatch
      is pigmented exactly when it is bright enough and saturated enough. */
  lemma PigmentedIff(e: Swatch)
    ensures Pigmented(e) <==> RgbToHsv(e.color).v >= MinValue && RgbToHsv(e.color).s >= MinSaturation
  {
  }

  /** A pigmented swatch with a non-negative share always scores above the
      initial maximum of 0. */
  lemma PigmentedScoresPositive(e: Swatch)
    requires Pigmented(e) && e.pct >= 0.0
    ensures Score(e) > 0.0
  {
    var hsv := RgbToHsv(e.color);
    assert hsv.s * hsv.s >= 0.0225;
    assert 1.0 - Abs(hsv.v - 0.7) * 0.5 >= 0.65;
  }

  /** More saturation, at the same brightness and share, scores strictly more. */
  lemma ScoreGrowsWithSaturation(a: Hsv, b: Hsv, pct: real)
    requires 0.0 <= a.s < b.s && a.v == b.v
    ensures HsvScore(a, pct) < HsvScore(b, pct)
  {
    SquareLess(a.s, b.s);
  }

  lemma SquareLess(p: real, q: real)
    requires 0.0 <= p < q
    ensures p * p < q * q
  {
    var d := q - p;
    assert q * q == (p + d) * (p + d);
    assert (p + d) * (p + d) == p * p + 2.0 * p * d + d * d;
    assert d * d > 0.0;
    assert p * d >= 0.0;
  }

  /** The brightness bonus is largest at value 0.7. */
  lemma ScorePeaksAtMidBrightness(a: Hsv, b: Hsv, pct: real)
    requires a.s == b.s && a.v == 0.7
    ensures HsvScore(b, pct) <= HsvScore(a, pct)
  {
  }

  /** Only one entry is the first best. */
  lemma FirstBestUnique(rs: seq<Option<real>>, a: int, b: int)
    requires FirstBest(rs, a, |rs|) && FirstBest(rs, b, |rs|)
    ensures a == b
  {
    assert rs[a].value <= rs[b].value && rs[b].value <= rs[a].value;
  }

  /** When shares are non-negative, the fallback to the most prevalent
      colour happens exactly when no swatch is pigmented. */
  lemma FallbackIffNonePigmented(colors: seq<Swatch>)
    requires forall i :: 0 <= i < |colors| ==> colors[i].pct >= 0.0
    ensures NoneBeatsZero(Ratings(colors), |colors|) <==>
      forall i :: 0 <= i < |colors| ==> !Pigmented(colors[i])
  {
    var rs := Ratings(colors);
    forall i | 0 <= i < |colors| && Pigmented(colors[i])
      ensures Beats(rs[i], 0.0)
    {
      PigmentedScoresPositive(colors[i]);
    }
  }

  /** The colour returned is the one at the first best position. */
  lemma SaturatedColorIsBest(colors: seq<Swatch>, i: int)
    requires FirstBest(Ratings(colors), i, |colors|)
    ensures SaturatedColor(colors) == colors[i].color
  {
    var rs := Ratings(colors);
    assert !NoneBeatsZero(rs, |colors|) by {
      assert Beats(rs[i], 0.0);
    }
    var j :| FirstBest(rs, j, |colors|) && SaturatedColor(colors) == colors[j].color;
    FirstBestUnique(rs, i, j);
  }

  /** The first best position holds a pigmented swatch, so one bright
      enough. */
  lemma BestIsBright(colors: seq<Swatch>, i: int)
    requires FirstBest(Ratings(colors), i, |colors|)
    ensures RgbToHsv(colors[i].color).v >= MinValue
  {
    assert Ratings(colors)[i].Some?;
    assert Pigmented(colors[i]);
  }

  /** A too-dark colour is only ever returned as the fallback: when no
      swatch is pigmented and it is the most prevalent one. */
  lemma DarkOnlyAsFallback(colors: seq<Swatch>)
    requires |colors| > 0
    ensures RgbToHsv(SaturatedColor(colors)).v < MinValue ==>
      NoneBeatsZero(Ratings(colors), |colors|) && SaturatedColor(colors) == colors[0].color
  {
    var c := SaturatedColor(colors);
    if !NoneBeatsZero(Ratings(colors), |colors|) {
      var i :| FirstBest(Ratings(colors), i, |colors|) && c == colors[i].color;
      BestIsBright(colors, i);
    }
  }

  lemma HsvOfNearWhite()
    ensures RgbToHsv(Rgb(250, 250, 250)) == Hsv(0.0, 0.0, 50.0 / 51.0)
  {
  }

  /** A cover that is 90% saturated red and 10% near-white yields the red. */
  lemma RedCoverPicksRed()
    ensures SaturatedColor([Swatch(Rgb(220, 0, 0), 90.0), Swatch(Rgb(250, 250, 250), 10.0)]) == Rgb(220, 0, 0)
  {
    var colors := [Swatch(Rgb(220, 0, 0), 90.0), Swatch(Rgb(250, 250, 250), 10.0)];
    HsvOfPureRed();
    HsvOfNearWhite();
    assert Pigmented(colors[0]);
    assert !Pigmented(colors[1]);
    PigmentedScoresPositive(colors[0]);
    SaturatedColorIsBest(colors, 0);
  }
}
