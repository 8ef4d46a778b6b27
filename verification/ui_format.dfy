/** The dashboard's text helpers: `ms_to_hms`, the `MM:SS` clock shown
    beside the progress bar, and `truncate`, which shortens a text to a
    column budget with a trailing ellipsis. */
module UiFormat {
  import opened Text
  import opened Optional

  /** `ms_to_hms`: a missing or non-positive duration shows as `00:00`;
      otherwise whole minutes and the remaining whole seconds, each at
      least two digits wide. */
  function MsToHms(ms: Option<int>): (r: string)
    ensures ms.None? || ms.value <= 0 ==> r == "00:00"
    ensures |r| >= 5 && r[|r| - 3] == ':'
    ensures ms.Some? && ms.value < 6_000_000 ==> |r| == 5
  {
    if ms.None? || ms.value <= 0 then "00:00"
    else
      var seconds := ms.value / 1000;
      var minutes := seconds / 60;
      ZeroPad2(minutes) + ":" + ZeroPad2(seconds % 60)
  }

  /** Reading the clock back: it splits at its one colon into two digit
      fields, the seconds field is two digits below 60, and together they
      give the whole seconds in `ms`. */
  lemma HmsReadsBack(ms: int)
    requires ms > 0
    ensures var parts := Split(MsToHms(Some(ms)), ':');
      && |parts| == 2
      && AllDigits(parts[0]) && AllDigits(parts[1]) && |parts[1]| == 2
      && DecimalValue(parts[1]) < 60
      && DecimalValue(parts[0]) * 60 + DecimalValue(parts[1]) == ms / 1000
  {
    var seconds := ms / 1000;
    var mm := ZeroPad2(seconds / 60);
    var ss := ZeroPad2(seconds % 60);
    assert MsToHms(Some(ms)) == mm + [':'] + ss;
    assert NoChar(mm, ':') by {
      forall i | 0 <= i < |mm| ensures mm[i] != ':' { assert IsDigit(mm[i]); }
    }
    assert NoChar(ss, ':') by {
      forall i | 0 <= i < |ss| ensures ss[i] != ':' { assert IsDigit(ss[i]); }
    }
    SplitPrefix(mm, ss, ':');
    SplitNoSep(ss, ':');
  }

  /** Python's `s[:k]`: a negative bound counts from the end, and the
      bound is clamped to the string. */
  function SliceTo(s: string, k: int): (r: string)
    ensures k >= 0 ==> r == s[..if k < |s| then k else |s|]
    ensures k < 0 ==> r == s[..if |s| + k > 0 then |s| + k else 0]
  {
    if k >= 0 then s[..if k < |s| then k else |s|]
    else s[..if |s| + k > 0 then |s| + k else 0]
  }

  /** `truncate`, as written: a text within the budget is kept, a longer
      one is cut to `max - 3` characters (Python slice) and given "...". */
  function Truncate(text: string, max: int): (r: string)
    ensures |text| <= max ==> r == text
    ensures |text| > max && max >= 3 ==>
      |r| == max && r[max - 3..] == "..." && r[..max - 3] == text[..max - 3]
  {
    if |text| <= max then text else SliceTo(text, max - 3) + "..."
  }

  /** With a budget of at least three columns, the result fits it, and
      truncating again changes nothing. */
  lemma TruncateFitsAndIsIdempotent(text: string, max: int)
    requires max >= 3
    ensures |Truncate(text, max)| <= max
    ensures Truncate(Truncate(text, max), max) == Truncate(text, max)
  {
  }

  /** Below three columns, `truncate` returns a text longer than the
      budget whenever it truncates at all. */
  lemma TruncateOverflowsNarrowBudget(text: string, max: int)
    requires max < 3 && |text| > max
    ensures |Truncate(text, max)| > max
  {
  }

  /** A concrete case: a six-letter text and a budget of two. */
  lemma TruncateTwoColumns()
    ensures Truncate("abcdef", 2) == "abcde..."
  {
    assert SliceTo("abcdef", -1) == "abcde";
  }

  /** `truncate` as intended: never longer than a non-negative budget.
      Below three columns there is no room for the ellipsis, so the text is
      cut to the budget; from three columns on it agrees with `Truncate`. */
  function TruncateBounded(text: string, max: int): (r: string)
    ensures max >= 0 ==> |r| <= max || r == text
    ensures |text| <= max ==> r == text
    ensures max >= 3 ==> r == Truncate(text, max)
  {
    if |text| <= max then text
    else if max < 3 then text[..if max > 0 then max else 0]
    else Truncate(text, max)
  }

  /** The corrected helper never exceeds a non-negative budget, and what
      it keeps of the text is a prefix of it. */
  lemma TruncateBoundedFits(text: string, max: int)
    requires max >= 0
    ensures |TruncateBounded(text, max)| <= max || |text| <= max
    ensures |text| > max ==> |TruncateBounded(text, max)| == max
    ensures max < 3 ==> TruncateBounded(text, max) == text[..|TruncateBounded(text, max)|]
  {
  }
}
