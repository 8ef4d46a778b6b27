/** The tail of `get_dominant_colors`: turning a clustering of the cover's
    pixels into `(colour, percentage)` pairs, most common cluster first,
    through `Counter(labels).most_common(n)`. The clustering itself
    (image decoding, resizing, k-means) is an input. */
module Histogram {
  import opened ColorSpace
  import opened Optional

  /** A dominant colour and the percentage of pixels in its cluster. */
  datatype Swatch = Swatch(color: Rgb, pct: real)

  /** A cluster and the number of pixels carrying it. */
  datatype Bin = Bin(cluster: nat, count: nat)

  /** What k-means yields: one label per pixel and the centre colour of
      each cluster, already truncated to integer channels. */
  datatype Clustering = Clustering(labels: seq<nat>, centres: seq<Rgb>)

  /** What the function answers when anything inside it fails. */
  const Fallback: seq<Swatch> := [Swatch(WhiteRgb, 100.0)]

  /** Number of pixels labelled `l`. */
  function Count(labels: seq<nat>, l: nat): nat {
    multiset(labels)[l]
  }

  /** Position of the first occurrence of `l`, or `|s|` when absent. */
  function FirstIndex(s: seq<nat>, l: nat): (i: nat)
    ensures i <= |s|
    ensures i < |s| <==> l in s
    ensures i < |s| ==> s[i] == l
  {
    if |s| == 0 then 0
    else if s[0] == l then 0
    else 1 + FirstIndex(s[1..], l)
  }

  /** The distinct labels, in order of first occurrence (the key order of a
      `Counter` built by scanning the labels). */
  function Distinct(s: seq<nat>): (d: seq<nat>)
    ensures forall i, j :: 0 <= i < j < |d| ==> d[i] != d[j]
    ensures forall l :: l in d <==> l in s
  {
    if |s| == 0 then []
    else
      var prev := Distinct(s[..|s| - 1]);
      assert s == s[..|s| - 1] + [s[|s| - 1]];
      if s[|s| - 1] in prev then prev else prev + [s[|s| - 1]]
  }

  /** Occurrences in a prefix of `s` start where they do in `s`. */
  lemma {:induction false} FirstIndexPrefix(s: seq<nat>, m: nat, l: nat)
    requires m <= |s| && l in s[..m]
    ensures FirstIndex(s[..m], l) == FirstIndex(s, l)
  {
    if s[0] != l {
      assert s[1..][..m - 1] == s[..m][1..];
      FirstIndexPrefix(s[1..], m - 1, l);
    }
  }

  /** The distinct labels appear in order of their first occurrence. */
  lemma {:induction false} DistinctOrder(s: seq<nat>)
    ensures forall i, j :: 0 <= i < j < |Distinct(s)| ==>
      FirstIndex(s, Distinct(s)[i]) < FirstIndex(s, Distinct(s)[j])
  {
    if |s| > 0 {
      var p := s[..|s| - 1];
      var x := s[|s| - 1];
      DistinctOrder(p);
      var d := Distinct(s);
      forall i, j | 0 <= i < j < |d|
        ensures FirstIndex(s, d[i]) < FirstIndex(s, d[j])
      {
        assert d[i] in p by { assert d[i] in Distinct(p); }
        FirstIndexPrefix(s, |s| - 1, d[i]);
        if d[j] in p {
          FirstIndexPrefix(s, |s| - 1, d[j]);
        } else {
          assert FirstIndex(s, d[j]) == |s| - 1;
        }
      }
    }
  }

  /** A bin for each label of `d`, counting its pixels in `labels`. */
  function BinsOf(d: seq<nat>, labels: seq<nat>): (t: seq<Bin>)
    ensures |t| == |d|
    ensures forall i :: 0 <= i < |t| ==> t[i] == Bin(d[i], Count(labels, d[i]))
  {
    if |d| == 0 then [] else [Bin(d[0], Count(labels, d[0]))] + BinsOf(d[1..], labels)
  }

  /** One bin per distinct label, in `Counter` key order. */
  function Tally(labels: seq<nat>): (t: seq<Bin>)
    ensures |t| == |Distinct(labels)|
    ensures forall i :: 0 <= i < |t| ==>
      t[i] == Bin(Distinct(labels)[i], Count(labels, Distinct(labels)[i]))
  {
    BinsOf(Distinct(labels), labels)
  }

  /** `a` is listed before `b` by `most_common`: more pixels first, and
      among equal counts the label seen first in `labels`. */
  predicate Precedes(labels: seq<nat>, a: Bin, b: Bin) {
    a.count > b.count
    || (a.count == b.count && FirstIndex(labels, a.cluster) < FirstIndex(labels, b.cluster))
  }

  predicate Ordered(labels: seq<nat>, s: seq<Bin>) {
    forall i, j :: 0 <= i < j < |s| ==> Precedes(labels, s[i], s[j])
  }

  function SumCounts(s: seq<Bin>): nat {
    if |s| == 0 then 0 else s[0].count + SumCounts(s[1..])
  }

  /** Inserting `x` into a list ordered by `most_common`, behind every bin
      with at least as many pixels (a stable insertion, since `x` comes
      last in key order). */
  function Insert(s: seq<Bin>, x: Bin): (r: seq<Bin>)
    ensures multiset(r) == multiset(s) + multiset{x}
    ensures SumCounts(r) == SumCounts(s) + x.count
  {
    if |s| == 0 then [x]
    else if s[0].count < x.count then [x] + s
    else
      assert s == [s[0]] + s[1..];
      [s[0]] + Insert(s[1..], x)
  }

  /** Insertion keeps the `most_common` order when `x` comes after every
      bin already present in key order. */
  lemma {:induction false} InsertOrdered(labels: seq<nat>, s: seq<Bin>, x: Bin)
    requires Ordered(labels, s)
    requires forall i :: 0 <= i < |s| ==> FirstIndex(labels, s[i].cluster) < FirstIndex(labels, x.cluster)
    ensures Ordered(labels, Insert(s, x))
  {
    if |s| > 0 && s[0].count >= x.count {
      var rest := Insert(s[1..], x);
      InsertOrdered(labels, s[1..], x);
      assert forall e :: e in multiset(rest) ==> e in s[1..] || e == x;
      forall i | 0 <= i < |rest|
        ensures Precedes(labels, s[0], rest[i])
      {
        assert rest[i] in multiset(rest);
      }
    }
  }

  lemma {:induction false} SumCountsAppend(s: seq<Bin>, x: Bin)
    ensures SumCounts(s + [x]) == SumCounts(s) + x.count
  {
    if |s| > 0 {
      assert (s + [x])[1..] == s[1..] + [x];
      SumCountsAppend(s[1..], x);
    }
  }

  /** `most_common` without a limit: every bin of `t`, ordered. */
  function Rank(t: seq<Bin>): (r: seq<Bin>)
    ensures multiset(r) == multiset(t)
    ensures SumCounts(r) == SumCounts(t)
  {
    if |t| == 0 then []
    else
      assert t == t[..|t| - 1] + [t[|t| - 1]];
      SumCountsAppend(t[..|t| - 1], t[|t| - 1]);
      Insert(Rank(t[..|t| - 1]), t[|t| - 1])
  }

  /** Ranking bins listed in key order yields the `most_common` order. */
  lemma {:induction false} RankOrdered(labels: seq<nat>, t: seq<Bin>)
    requires forall i, j :: 0 <= i < j < |t| ==>
      FirstIndex(labels, t[i].cluster) < FirstIndex(labels, t[j].cluster)
    ensures Ordered(labels, Rank(t))
  {
    if |t| > 0 {
      var init := t[..|t| - 1];
      var prev := Rank(init);
      RankOrdered(labels, init);
      forall i | 0 <= i < |prev|
        ensures FirstIndex(labels, prev[i].cluster) < FirstIndex(labels, t[|t| - 1].cluster)
      {
        assert prev[i] in multiset(init);
      }
      InsertOrdered(labels, prev, t[|t| - 1]);
    }
  }

  /** Every bin, most common first. */
  function Ranked(labels: seq<nat>): (r: seq<Bin>)
    ensures multiset(r) == multiset(Tally(labels))
  {
    Rank(Tally(labels))
  }

  /** The ranked bins are one per distinct label, with its pixel count,
      in the `most_common` order. */
  lemma RankedFacts(labels: seq<nat>)
    ensures |Ranked(labels)| == |Distinct(labels)|
    ensures Ordered(labels, Ranked(labels))
    ensures forall i :: 0 <= i < |Ranked(labels)| ==>
      Ranked(labels)[i].cluster in labels
      && Ranked(labels)[i].count == Count(labels, Ranked(labels)[i].cluster)
  {
    var t := Tally(labels);
    var r := Ranked(labels);
    DistinctOrder(labels);
    RankOrdered(labels, t);
    assert |r| == |t| by {
      assert |multiset(r)| == |multiset(t)|;
    }
    forall i | 0 <= i < |r|
      ensures r[i].cluster in labels && r[i].count == Count(labels, r[i].cluster)
    {
      assert r[i] in multiset(t);
    }
  }

  /** `Counter(labels).most_common(n)`. */
  function MostCommon(labels: seq<nat>, n: nat): (r: seq<Bin>)
    ensures |r| == if n < |Distinct(labels)| then n else |Distinct(labels)|
    ensures Ordered(labels, r)
    ensures forall i :: 0 <= i < |r| ==>
      r[i].cluster in labels && r[i].count == Count(labels, r[i].cluster)
  {
    RankedFacts(labels);
    var ranked := Ranked(labels);
    if n < |ranked| then ranked[..n] else ranked
  }

  /** Every bin's cluster has a centre colour. */
  predicate HaveCentres(bins: seq<Bin>, centres: seq<Rgb>) {
    forall i :: 0 <= i < |bins| ==> bins[i].cluster < |centres|
  }

  /** The swatches built from the bins: each label's centre colour and its
      share of all pixels, in percent. */
  function Swatches(c: Clustering, bins: seq<Bin>): (r: seq<Swatch>)
    requires |c.labels| > 0
    requires HaveCentres(bins, c.centres)
    ensures |r| == |bins|
    ensures forall i :: 0 <= i < |r| ==>
      r[i] == Swatch(c.centres[bins[i].cluster], bins[i].count as real / |c.labels| as real * 100.0)
  {
    if |bins| == 0 then []
    else
      [Swatch(c.centres[bins[0].cluster], bins[0].count as real / |c.labels| as real * 100.0)]
      + Swatches(c, bins[1..])
  }

  /** `get_dominant_colors` from the clustering on: `None` (the image could
      not be read or clustered) and a label with no centre (the index error
      the function catches) both give the white fallback. */
  function DominantColors(c: Option<Clustering>, n: nat): (r: seq<Swatch>)
    ensures c.None? ==> r == Fallback
    ensures c.Some? ==> |r| <= n || r == Fallback
  {
    match c
    case None => Fallback
    case Some(cl) =>
      var bins := MostCommon(cl.labels, n);
      if |bins| == 0 then
        []
      else if !HaveCentres(bins, cl.centres) then Fallback
      else Swatches(cl, bins)
  }

  /** Sum of the percentages of a list of swatches. */
  function SumShares(s: seq<Swatch>): real {
    if |s| == 0 then 0.0 else s[0].pct + SumShares(s[1..])
  }

  /** No empty bins: every distinct label counts at least one pixel. */
  lemma TallyPositive(labels: seq<nat>)
    ensures forall i :: 0 <= i < |Tally(labels)| ==> Tally(labels)[i].count > 0
  {
    forall i | 0 <= i < |Tally(labels)|
      ensures Tally(labels)[i].count > 0
    {
      assert Distinct(labels)[i] in labels;
    }
  }

  /** One more pixel adds one to the bins when its label has a bin. */
  lemma {:induction false} BinsOfAppend(d: seq<nat>, p: seq<nat>, x: nat)
    requires forall i, j :: 0 <= i < j < |d| ==> d[i] != d[j]
    ensures SumCounts(BinsOf(d, p + [x])) == SumCounts(BinsOf(d, p)) + (if x in d then 1 else 0)
  {
    if |d| > 0 {
      BinsOfAppend(d[1..], p, x);
      assert multiset(p + [x]) == multiset(p) + multiset{x};
      assert d[0] == x ==> x !in d[1..];
    }
  }

  /** Bins for labels that cover every pixel count every pixel once. */
  lemma {:induction false} BinsOfCoverAll(d: seq<nat>, s: seq<nat>)
    requires forall i, j :: 0 <= i < j < |d| ==> d[i] != d[j]
    requires forall l :: l in s ==> l in d
    ensures SumCounts(BinsOf(d, s)) == |s|
  {
    if |s| == 0 {
      BinsOfEmpty(d);
    } else {
      var p := s[..|s| - 1];
      assert s == p + [s[|s| - 1]];
      BinsOfCoverAll(d, p);
      BinsOfAppend(d, p, s[|s| - 1]);
    }
  }

  lemma {:induction false} BinsOfEmpty(d: seq<nat>)
    ensures SumCounts(BinsOf(d, [])) == 0
  {
    if |d| > 0 {
      BinsOfEmpty(d[1..]);
    }
  }

  /** The bins together count every pixel. */
  lemma TallyCountsAll(labels: seq<nat>)
    ensures SumCounts(Tally(labels)) == |labels|
  {
    BinsOfCoverAll(Distinct(labels), labels);
  }

  /** Percentages are the counts scaled by `100 / |labels|`. */
  lemma {:induction false} SwatchesShares(c: Clustering, bins: seq<Bin>)
    requires |c.labels| > 0
    requires HaveCentres(bins, c.centres)
    ensures SumShares(Swatches(c, bins)) == SumCounts(bins) as real * (100.0 / |c.labels| as real)
  {
    var k := 100.0 / |c.labels| as real;
    if |bins| > 0 {
      SwatchesShares(c, bins[1..]);
      var a := bins[0].count as real;
      assert a / |c.labels| as real * 100.0 == a * k;
      assert Swatches(c, bins)[1..] == Swatches(c, bins[1..]);
    }
  }

  /** When every cluster fits within `n`, `most_common(n)` keeps every
      pixel. */
  lemma MostCommonCountsAll(labels: seq<nat>, n: nat)
    requires |labels| > 0 && |Distinct(labels)| <= n
    ensures SumCounts(MostCommon(labels, n)) == |labels|
    ensures |MostCommon(labels, n)| > 0
  {
    RankedFacts(labels);
    assert MostCommon(labels, n) == Ranked(labels);
    TallyCountsAll(labels);
    assert labels[0] in Distinct(labels);
  }

  /** When every cluster fits within `n`, the shares add up to 100 percent,
      whether the swatches come from the clustering or from the fallback. */
  lemma SharesSumTo100(cl: Clustering, n: nat)
    requires |cl.labels| > 0 && |Distinct(cl.labels)| <= n
    ensures SumShares(DominantColors(Some(cl), n)) == 100.0
  {
    var bins := MostCommon(cl.labels, n);
    MostCommonCountsAll(cl.labels, n);
    if HaveCentres(bins, cl.centres) {
      SwatchesWhole(cl, bins);
    } else {
      assert SumShares(Fallback) == 100.0 + SumShares([]);
    }
  }

  /** Bins that count every pixel give shares summing to 100 percent. */
  lemma SwatchesWhole(cl: Clustering, bins: seq<Bin>)
    requires |cl.labels| > 0 && HaveCentres(bins, cl.centres)
    requires SumCounts(bins) == |cl.labels|
    ensures SumShares(Swatches(cl, bins)) == 100.0
  {
    SwatchesShares(cl, bins);
    var k := |cl.labels| as real;
    assert k * (100.0 / k) == 100.0;
  }

  /** More pixels, no smaller share. */
  lemma ShareMonotone(a: nat, b: nat, total: nat)
    requires total > 0 && a >= b
    ensures a as real / total as real * 100.0 >= b as real / total as real * 100.0
  {
    var k := 100.0 / total as real;
    assert a as real / total as real * 100.0 == a as real * k;
    assert b as real / total as real * 100.0 == b as real * k;
    assert (a - b) as real * k >= 0.0;
  }

  /** The swatches come most prevalent first. */
  lemma SharesDescending(cl: Clustering, n: nat)
    ensures forall i, j :: 0 <= i < j < |DominantColors(Some(cl), n)| ==>
      DominantColors(Some(cl), n)[i].pct >= DominantColors(Some(cl), n)[j].pct
  {
    var bins := MostCommon(cl.labels, n);
    var r := DominantColors(Some(cl), n);
    if |bins| > 0 && HaveCentres(bins, cl.centres) {
      assert bins[0].cluster in cl.labels;
      assert r == Swatches(cl, bins);
      forall i, j | 0 <= i < j < |r|
        ensures r[i].pct >= r[j].pct
      {
        assert Precedes(cl.labels, bins[i], bins[j]);
        ShareMonotone(bins[i].count, bins[j].count, |cl.labels|);
      }
    }
  }

  /** Every label that occurs has its bin somewhere in the ranking. */
  lemma InRanked(labels: seq<nat>, l: nat) returns (j: nat)
    requires l in labels
    ensures j < |Ranked(labels)| && Ranked(labels)[j] == Bin(l, Count(labels, l))
  {
    var d := Distinct(labels);
    var t := Tally(labels);
    assert l in d;
    var k :| 0 <= k < |d| && d[k] == l;
    assert t[k] == Bin(l, Count(labels, l));
    assert t[k] in multiset(Ranked(labels));
    j :| 0 <= j < |Ranked(labels)| && Ranked(labels)[j] == t[k];
  }

  /** A label missing from the first `m` ranked bins has no more pixels
      than any of them. */
  lemma RankedTop(labels: seq<nat>, m: nat, l: nat)
    requires l in labels && m <= |Ranked(labels)|
    requires forall i :: 0 <= i < m ==> Ranked(labels)[i].cluster != l
    ensures forall i :: 0 <= i < m ==> Count(labels, l) <= Ranked(labels)[i].count
  {
    var ranked := Ranked(labels);
    var j := InRanked(labels, l);
    RankedFacts(labels);
    forall i | 0 <= i < m
      ensures Count(labels, l) <= ranked[i].count
    {
      assert i < j;
      assert Precedes(labels, ranked[i], ranked[j]);
    }
  }

  /** A label left out of `most_common(n)` has no more pixels than any
      label kept: the result is a top-`n` list. */
  lemma MostCommonIsTop(labels: seq<nat>, n: nat, l: nat)
    requires l in labels
    requires forall i :: 0 <= i < |MostCommon(labels, n)| ==> MostCommon(labels, n)[i].cluster != l
    ensures forall i :: 0 <= i < |MostCommon(labels, n)| ==>
      Count(labels, l) <= MostCommon(labels, n)[i].count
  {
    var r := MostCommon(labels, n);
    RankedFacts(labels);
    assert r == Ranked(labels)[..|r|];
    RankedTop(labels, |r|, l);
  }
}
