/** Where the three panels sit on a terminal of `rows` by `cols`
    characters, as their `restart` methods compute it, and how the UI
    notices a change of terminal size. */
module Layout {
  import opened Optional

  /** A panel's box: border rows `top` and `bottom`, border columns
      `left` and `right`, all inclusive. */
  datatype Box = Box(top: int, bottom: int, left: int, right: int)

  /** `StatusBar.restart`: the top three rows, the full width. */
  function StatusBox(rows: int, cols: int): (b: Box)
    ensures b.top == 0 && b.bottom - b.top + 1 == 3
    ensures b.left == 0 && b.right == cols - 1
  {
    Box(0, 2, 0, cols - 1)
  }

  /** `LogWindow.restart`: from below the status bar down to five rows
      above the bottom edge. */
  function LogBox(rows: int, cols: int): (b: Box)
    ensures b.top == StatusBox(rows, cols).bottom + 1
    ensures b.bottom == rows - 5
    ensures b.left == 0 && b.right == cols - 1
  {
    Box(3, rows - 5, 0, cols - 1)
  }

  /** `NowPlaying.restart`: three rows ending one row above the last, which
      stays unused. */
  function NowPlayingBox(rows: int, cols: int): (b: Box)
    ensures b.bottom == rows - 2 && b.bottom - b.top + 1 == 3
    ensures b.left == 0 && b.right == cols - 1
  {
    Box(rows - 4, rows - 2, 0, cols - 1)
  }

  predicate InRows(b: Box, y: int) {
    b.top <= y <= b.bottom
  }

  /** Row `y` belongs to some panel. */
  predicate Covered(rows: int, cols: int, y: int) {
    exists i :: 0 <= i < 3 && InRows(Panels(rows, cols)[i], y)
  }

  /** The panels in screen order. */
  function Panels(rows: int, cols: int): seq<Box> {
    [StatusBox(rows, cols), LogBox(rows, cols), NowPlayingBox(rows, cols)]
  }

  /** `available_lines`: the log lines the log panel has room for. From
      nine rows on, that is the number of rows strictly between its
      borders, nine fewer than the terminal has. */
  function LogCapacity(rows: int, cols: int): (n: int)
    ensures n == rows - 9
    ensures rows >= 9 ==> n == |RowsBetween(LogBox(rows, cols).top, LogBox(rows, cols).bottom)|
  {
    var b := LogBox(rows, cols);
    b.bottom - b.top - 1
  }

  /** The rows strictly between `lo` and `hi`. */
  function RowsBetween(lo: int, hi: int): (r: set<int>)
    ensures forall y :: y in r <==> lo < y < hi
    ensures |r| == if hi - lo > 1 then hi - lo - 1 else 0
    decreases hi - lo
  {
    if hi - lo <= 1 then {}
    else RowsBetween(lo, hi - 1) + {hi - 1}
  }

  /** On a terminal of at least eight rows the panels are non-empty, follow
      each other top to bottom without a gap, share no row, and leave
      exactly the last row free. */
  lemma {:induction false} PanelsStack(rows: int, cols: int)
    requires rows >= 8
    ensures forall i :: 0 <= i < 3 ==> Panels(rows, cols)[i].top <= Panels(rows, cols)[i].bottom
    ensures forall i :: 0 <= i < 2 ==> Panels(rows, cols)[i].bottom + 1 == Panels(rows, cols)[i + 1].top
    ensures forall i, j, y :: 0 <= i < j < 3 && InRows(Panels(rows, cols)[i], y) ==> !InRows(Panels(rows, cols)[j], y)
    ensures forall y :: 0 <= y < rows - 1 <==> Covered(rows, cols, y)
  {
    var ps := Panels(rows, cols);
    forall y | 0 <= y < rows - 1
      ensures Covered(rows, cols, y)
    {
      if y <= 2 { assert InRows(ps[0], y); }
      else if y <= rows - 5 { assert InRows(ps[1], y); }
      else { assert InRows(ps[2], y); }
    }
  }

  /** Below eight rows the log panel's bottom border lies above its top
      border: the layout only holds from eight rows on. */
  lemma LogBoxInverted(rows: int, cols: int)
    requires rows < 8
    ensures LogBox(rows, cols).bottom < LogBox(rows, cols).top
    ensures LogCapacity(rows, cols) < 0
  {
  }

  /** The terminal size the UI last saw. */
  datatype Screen = Screen(height: int, width: int)

  /** `check_resize`: `size` is the terminal's current size, `None` when
      reading it fails. Reports whether the size changed, and remembers
      the new size when it did. */
  function CheckResize(s: Screen, size: Option<(int, int)>): (r: (bool, Screen))
    ensures r.0 <==> size.Some? && (size.value.0 != s.height || size.value.1 != s.width)
    ensures size.Some? ==> r.1 == Screen(size.value.0, size.value.1)
    ensures size.None? ==> r.1 == s
  {
    match size
    case None => (false, s)
    case Some((h, w)) =>
      if h != s.height || w != s.width then (true, Screen(h, w)) else (false, s)
  }

  /** A second check at the same size reports no change. */
  lemma ResizeSettles(s: Screen, size: Option<(int, int)>)
    ensures !CheckResize(CheckResize(s, size).1, size).0
    ensures CheckResize(CheckResize(s, size).1, size).1 == CheckResize(s, size).1
  {
  }
}
