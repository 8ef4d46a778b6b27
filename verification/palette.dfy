/** The fixed eight-entry palette of curses colours (`CURSES_COLORS`) and
    the nearest-entry mapper `rgb_to_curses_color`, which never answers
    black: a black winner is reported as white. */
module Palette {
  import opened ColorSpace
  import opened Optional

  /** The eight basic curses colour constants. */
  datatype CursesColor = Black | Red | Green | Yellow | Blue | Magenta | Cyan | White

  datatype Entry = Entry(name: CursesColor, rgb: Rgb)

  /** `CURSES_COLORS`, in its iteration order. */
  const Table: seq<Entry> := [
    Entry(Black, Rgb(0, 0, 0)),
    Entry(Red, Rgb(220, 30, 30)),
    Entry(Green, Rgb(30, 200, 30)),
    Entry(Yellow, Rgb(230, 220, 30)),
    Entry(Blue, Rgb(30, 30, 220)),
    Entry(Magenta, Rgb(210, 30, 210)),
    Entry(Cyan, Rgb(30, 210, 210)),
    Entry(White, Rgb(220, 220, 220))
  ]

  /** The constant the mapper reports for a winning entry: black is
      replaced by white, every other name stands for itself. */
  function Reported(name: CursesColor): (c: CursesColor)
    ensures c != Black
    ensures name != Black ==> c == name
    ensures name == Black ==> c == White
  {
    if name == Black then White else name
  }

  /** Perceptual distances from `c` to each palette entry, in table order. */
  function Distances(c: Rgb): (ds: seq<real>)
    ensures |ds| == |Table|
    ensures forall k :: 0 <= k < |Table| ==> ds[k] == ColorDistance(c, Table[k].rgb)
  {
    seq(|Table|, k requires 0 <= k < |Table| => ColorDistance(c, Table[k].rgb))
  }

  /** Among the first `n` distances, `best` is smallest, and no earlier
      one is as small (the first of equally small ones). */
  predicate FirstMinBelow(ds: seq<real>, best: int, n: int) {
    && 0 <= best < n <= |ds|
    && (forall j :: 0 <= j < n ==> ds[best] <= ds[j])
    && (forall j :: 0 <= j < best ==> ds[best] < ds[j])
  }

  /** One step of the scan: entry `k` either becomes the new best (it is
      strictly nearer than the best so far) or leaves the best in place. */
  lemma ExtendMin(ds: seq<real>, best: int, k: int)
    requires FirstMinBelow(ds, best, k) && k < |ds|
    ensures ds[k] < ds[best] ==> FirstMinBelow(ds, k, k + 1)
    ensures !(ds[k] < ds[best]) ==> FirstMinBelow(ds, best, k + 1)
  {
  }

  /** The loop of `rgb_to_curses_color` from entry `k` on, over the
      distances `ds` to the entries: `minDistance` is the smallest
      distance so far (`None` standing for `float('inf')`) and `closest`
      the constant reported for it. */
  function NearestFrom(ds: seq<real>, k: int, minDistance: Option<real>, closest: CursesColor): (r: CursesColor)
    requires |ds| == |Table| && 0 <= k <= |Table|
    requires k == 0 ==> minDistance == None && closest == White
    requires k > 0 ==> exists best :: (FirstMinBelow(ds, best, k)
      && minDistance == Some(ds[best]) && closest == Reported(Table[best].name))
    ensures exists best :: FirstMinBelow(ds, best, |Table|) && r == Reported(Table[best].name)
    decreases |Table| - k
  {
    if k == |Table| then closest
    else if minDistance.None? || ds[k] < minDistance.value then
      assert FirstMinBelow(ds, k, k + 1) by {
        if k > 0 {
          var best :| FirstMinBelow(ds, best, k) && minDistance == Some(ds[best]);
          ExtendMin(ds, best, k);
        }
      }
      NearestFrom(ds, k + 1, Some(ds[k]), Reported(Table[k].name))
    else
      assert exists best :: (FirstMinBelow(ds, best, k + 1)
        && minDistance == Some(ds[best]) && closest == Reported(Table[best].name)) by {
        var best :| FirstMinBelow(ds, best, k)
          && minDistance == Some(ds[best]) && closest == Reported(Table[best].name);
        ExtendMin(ds, best, k);
      }
      NearestFrom(ds, k + 1, minDistance, closest)
  }

  /** `rgb_to_curses_color`: the constant of the first palette entry at
      least as near to `c` as every other, never black. */
  function RgbToCurses(c: Rgb): (r: CursesColor)
    ensures r != Black
    ensures exists best :: FirstMinBelow(Distances(c), best, |Table|) && r == Reported(Table[best].name)
  {
    NearestFrom(Distances(c), 0, None, White)
  }

  /** There is only one first-smallest position. */
  lemma FirstMinUnique(ds: seq<real>, a: int, b: int)
    requires FirstMinBelow(ds, a, |ds|) && FirstMinBelow(ds, b, |ds|)
    ensures a == b
  {
    assert ds[a] <= ds[b] && ds[b] <= ds[a];
  }

  /** The mapper reports exactly the constant of the first nearest entry. */
  lemma RgbToCursesIsNearest(c: Rgb, best: int)
    requires FirstMinBelow(Distances(c), best, |Table|)
    ensures RgbToCurses(c) == Reported(Table[best].name)
  {
    var r := RgbToCurses(c);
    var b :| FirstMinBelow(Distances(c), b, |Table|) && r == Reported(Table[b].name);
    FirstMinUnique(Distances(c), b, best);
  }

  /** A colour whose nearest entry is black is shown as white. */
  lemma NearestBlackIsWhite(c: Rgb)
    requires FirstMinBelow(Distances(c), 0, |Table|)
    ensures RgbToCurses(c) == White
  {
    RgbToCursesIsNearest(c, 0);
  }

  /** The HSV form of each palette entry. */
  const TableHsv: seq<Hsv> := [
    Hsv(0.0, 0.0, 0.0),
    Hsv(0.0, 19.0 / 22.0, 44.0 / 51.0),
    Hsv(1.0 / 3.0, 17.0 / 20.0, 40.0 / 51.0),
    Hsv(19.0 / 120.0, 20.0 / 23.0, 46.0 / 51.0),
    Hsv(2.0 / 3.0, 19.0 / 22.0, 44.0 / 51.0),
    Hsv(5.0 / 6.0, 6.0 / 7.0, 14.0 / 17.0),
    Hsv(0.5, 6.0 / 7.0, 14.0 / 17.0),
    Hsv(0.0, 0.0, 44.0 / 51.0)
  ]

  lemma TableHsvCorrect(k: int)
    requires 0 <= k < |Table|
    ensures RgbToHsv(Table[k].rgb) == TableHsv[k]
  {
    if k == 0 { HsvOfBlack(); }
    else if k == 1 { HsvOfRed(); }
    else if k == 2 { HsvOfGreen(); }
    else if k == 3 { HsvOfYellow(); }
    else if k == 4 { HsvOfBlue(); }
    else if k == 5 { HsvOfMagenta(); }
    else if k == 6 { HsvOfCyan(); }
    else { HsvOfWhite(); }
  }

  lemma HsvOfBlack() ensures RgbToHsv(Table[0].rgb) == TableHsv[0] {}
  lemma HsvOfRed() ensures RgbToHsv(Table[1].rgb) == TableHsv[1] {}
  lemma HsvOfGreen() ensures RgbToHsv(Table[2].rgb) == TableHsv[2] {}
  lemma HsvOfYellow() ensures RgbToHsv(Table[3].rgb) == TableHsv[3] {}
  lemma HsvOfBlue() ensures RgbToHsv(Table[4].rgb) == TableHsv[4] {}
  lemma HsvOfMagenta() ensures RgbToHsv(Table[5].rgb) == TableHsv[5] {}
  lemma HsvOfCyan() ensures RgbToHsv(Table[6].rgb) == TableHsv[6] {
    var r, g := Scale(30), Scale(210);
    assert Max3(r, g, g) == g && Min3(r, g, g) == r;
    assert (g - r) / (g - r) == 1.0;
    assert Hue(r, g, g, g, g - r) == Frac(3.0 / 6.0) == 0.5;
    assert (g - r) / g == 6.0 / 7.0;
  }
  lemma HsvOfWhite() ensures RgbToHsv(Table[7].rgb) == TableHsv[7] {}

  /** No two palette entries share an HSV form. */
  lemma TableHsvDistinct(i: int, j: int)
    requires 0 <= i < |Table| && 0 <= j < |Table| && i != j
    ensures TableHsv[i] != TableHsv[j]
  {
  }

  /** The distance between two palette entries, read off their HSV forms. */
  lemma TableDistance(k: int, j: int)
    requires 0 <= k < |Table| && 0 <= j < |Table|
    ensures ColorDistance(Table[k].rgb, Table[j].rgb) == HsvDistance(TableHsv[k], TableHsv[j])
  {
    TableHsvCorrect(k);
    TableHsvCorrect(j);
  }

  /** Every palette hue lies on the unit circle [0, 1). */
  lemma TableHsvHue(k: int)
    requires 0 <= k < |Table|
    ensures 0.0 <= TableHsv[k].h < 1.0
  {
  }

  /** Each non-black entry is strictly nearest to itself among all entries. */
  lemma EntryNearestToItself(k: int)
    requires 1 <= k < |Table|
    ensures FirstMinBelow(Distances(Table[k].rgb), k, |Table|)
  {
    var ds := Distances(Table[k].rgb);
    forall j | 0 <= j < |Table|
      ensures ds[k] <= ds[j]
      ensures j != k ==> ds[k] < ds[j]
    {
      TableDistance(k, j);
      TableDistance(k, k);
      TableHsvHue(k);
      TableHsvHue(j);
      var a, b := TableHsv[k], TableHsv[j];
      HsvDistanceZero(a, a);
      HsvDistanceZero(a, b);
      if j != k {
        TableHsvDistinct(k, j);
      }
    }
  }

  /** Every palette reference colour other than black maps to its own constant. */
  lemma PaletteFixedPoint(k: int)
    requires 1 <= k < |Table|
    ensures RgbToCurses(Table[k].rgb) == Table[k].name
  {
    EntryNearestToItself(k);
    RgbToCursesIsNearest(Table[k].rgb, k);
    ReportedOwnName(k);
  }

  /** Every entry but black reports its own name. */
  lemma ReportedOwnName(k: int)
    requires 1 <= k < |Table|
    ensures Reported(Table[k].name) == Table[k].name
  {
  }

  lemma HsvOfPureRed()
    ensures RgbToHsv(Rgb(220, 0, 0)) == Hsv(0.0, 1.0, 44.0 / 51.0)
  {
  }

  /** A fully saturated red of value 0.86 is shown as red. */
  lemma PureRedMapsToRed()
    ensures RgbToCurses(Rgb(220, 0, 0)) == Red
  {
    var c := Rgb(220, 0, 0);
    var ds := Distances(c);
    HsvOfPureRed();
    forall j | 0 <= j < |Table|
      ensures ds[j] == HsvDistance(Hsv(0.0, 1.0, 44.0 / 51.0), TableHsv[j])
    {
      TableHsvCorrect(j);
    }
    assert FirstMinBelow(ds, 1, |Table|);
    RgbToCursesIsNearest(c, 1);
  }
}
