/** The dashboard's log: `LogWindow.add_log` wraps each message in a
    category tag and keeps the last 100 entries; the log renderer
    (`LogWindowComponent.render`) finds the tag again, picks the style from
    it and strips the markers before drawing. */
module LogWindow {
  import opened Text
  import opened Optional

  /** The categories, in the order both the tagger and the renderer test them. */
  datatype Tag =
    | ErrorTag | CanvasTag | ArtistTag | ColorTag | NavigationTag | PlaybackTag
    | ControlTag | ConnectionTag | DisplayTag | SearchTag | NormalTag

  const Tags: seq<Tag> := [ErrorTag, CanvasTag, ArtistTag, ColorTag, NavigationTag,
    PlaybackTag, ControlTag, ConnectionTag, DisplayTag, SearchTag, NormalTag]

  const MaxLogs := 100

  function TagName(t: Tag): string {
    match t
    case ErrorTag => "error"
    case CanvasTag => "canvas"
    case ArtistTag => "artist"
    case ColorTag => "color"
    case NavigationTag => "navigation"
    case PlaybackTag => "playback"
    case ControlTag => "control"
    case ConnectionTag => "connection"
    case DisplayTag => "display"
    case SearchTag => "search"
    case NormalTag => "normal"
  }

  /** The markers `add_log` puts around an entry of category `name`. */
  function OpenMarker(name: string): string {
    "<" + name + ">"
  }

  function CloseMarker(name: string): string {
    "</" + name + ">"
  }

  function Open(t: Tag): string {
    OpenMarker(TagName(t))
  }

  function Close(t: Tag): string {
    CloseMarker(TagName(t))
  }

  /** Python's `any(term in message for term in terms)`. */
  predicate ContainsAny(message: string, terms: seq<string>) {
    exists i :: 0 <= i < |terms| && Contains(message, terms[i])
  }

  /** The category `add_log` gives a message: the first rule that matches. */
  function Classify(message: string): Tag {
    if Contains(message, "[ERROR]") then ErrorTag
    else if Contains(message, "Canvas URL found") then CanvasTag
    else if Contains(message, "Artist image URL") then ArtistTag
    else if Contains(message, "Track color") then ColorTag
    else if ContainsAny(message, ["Next track", "Previous track"]) then NavigationTag
    else if ContainsAny(message, ["Playback", "Playing", "resumed", "paused"]) then PlaybackTag
    else if ContainsAny(message, ["Shuffle", "Repeat"]) then ControlTag
    else if Contains(message, "Client") && Contains(message, "connected") then ConnectionTag
    else if ContainsAny(message, ["Displaying", "Listing"]) then DisplayTag
    else if ContainsAny(message, ["Searching", "Search"]) then SearchTag
    else NormalTag
  }

  /** The rule for each category on its own. */
  predicate Matches(t: Tag, message: string) {
    match t
    case ErrorTag => Contains(message, "[ERROR]")
    case CanvasTag => Contains(message, "Canvas URL found")
    case ArtistTag => Contains(message, "Artist image URL")
    case ColorTag => Contains(message, "Track color")
    case NavigationTag => ContainsAny(message, ["Next track", "Previous track"])
    case PlaybackTag => ContainsAny(message, ["Playback", "Playing", "resumed", "paused"])
    case ControlTag => ContainsAny(message, ["Shuffle", "Repeat"])
    case ConnectionTag => Contains(message, "Client") && Contains(message, "connected")
    case DisplayTag => ContainsAny(message, ["Displaying", "Listing"])
    case SearchTag => ContainsAny(message, ["Searching", "Search"])
    case NormalTag => true
  }

  /** The position of a category in the testing order. */
  function TagIndex(t: Tag): (i: nat)
    ensures i < |Tags| && Tags[i] == t
  {
    match t
    case ErrorTag => 0
    case CanvasTag => 1
    case ArtistTag => 2
    case ColorTag => 3
    case NavigationTag => 4
    case PlaybackTag => 5
    case ControlTag => 6
    case ConnectionTag => 7
    case DisplayTag => 8
    case SearchTag => 9
    case NormalTag => 10
  }

  /** The chain picks the first category, in testing order, whose rule matches. */
  lemma ClassifyIsFirstMatch(message: string)
    ensures Matches(Classify(message), message)
    ensures forall k :: 0 <= k < TagIndex(Classify(message)) ==> !Matches(Tags[k], message)
  {
  }

  /** An `[ERROR]` marker wins over every other rule. */
  lemma ErrorFirst(message: string)
    ensures Classify(message) == ErrorTag <==> Contains(message, "[ERROR]")
  {
  }

  /** The body of an entry: `"[<timestamp>] <message>"`. */
  function Line(ts: string, message: string): string {
    "[" + ts + "] " + message
  }

  /** The stored form of a log entry. */
  function Tagged(ts: string, message: string): string {
    var t := Classify(message);
    Open(t) + Line(ts, message) + Close(t)
  }

  /** The log buffer and the renderer's animation marks (entry index to
      animation frame). */
  datatype LogState = LogState(logs: seq<string>, animated: map<int, real>)

  /** `add_log` with the clock reading `ts`: append the tagged entry, drop
      the oldest when over the limit, and mark the new entry for its slide-in
      at frame 0. The render that `add_log` runs straight afterwards
      advances that frame; that step belongs to the slide-in curve, which
      is not modelled. */
  function AddLog(st: LogState, ts: string, message: string): (st': LogState)
    ensures |st'.logs| > 0 && st'.logs[|st'.logs| - 1] == Tagged(ts, message)
    ensures |st.logs| < MaxLogs ==> st'.logs == st.logs + [Tagged(ts, message)]
    ensures |st.logs| >= MaxLogs ==> st'.logs == st.logs[1..] + [Tagged(ts, message)]
    ensures |st.logs| <= MaxLogs ==> |st'.logs| <= MaxLogs
    ensures |st'.logs| - 1 in st'.animated && st'.animated[|st'.logs| - 1] == 0.0
  {
    var logs := st.logs + [Tagged(ts, message)];
    if |logs| > MaxLogs then
      LogState(logs[1..], st.animated[|logs| - 2 := 0.0])
    else
      LogState(logs, st.animated[|logs| - 1 := 0.0])
  }

  /** What the renderer draws for an entry: the first category, in testing
      order from `k` on, whose opening marker occurs in it, and the entry
      with that category's markers removed; an untagged entry is drawn as is. */
  function StripFrom(log: string, k: nat): (r: (Option<Tag>, string))
    requires k <= |Tags|
    decreases |Tags| - k
  {
    if k == |Tags| then (None, log)
    else if Contains(log, Open(Tags[k])) then
      (Some(Tags[k]), Replace(Replace(log, Open(Tags[k]), ""), Close(Tags[k]), ""))
    else StripFrom(log, k + 1)
  }

  function Strip(log: string): (Option<Tag>, string) {
    StripFrom(log, 0)
  }

  /** A category name: at least four lower-case letters. */
  predicate IsName(a: string) {
    |a| >= 4 && forall i :: 0 <= i < |a| ==> 'a' <= a[i] <= 'z'
  }

  /** The category whose name starts with `key`. */
  function TagOfKey(key: string): Option<Tag> {
    if key == "erro" then Some(ErrorTag)
    else if key == "canv" then Some(CanvasTag)
    else if key == "arti" then Some(ArtistTag)
    else if key == "colo" then Some(ColorTag)
    else if key == "navi" then Some(NavigationTag)
    else if key == "play" then Some(PlaybackTag)
    else if key == "cont" then Some(ControlTag)
    else if key == "conn" then Some(ConnectionTag)
    else if key == "disp" then Some(DisplayTag)
    else if key == "sear" then Some(SearchTag)
    else if key == "norm" then Some(NormalTag)
    else None
  }

  /** Every category name is a name, and its first four letters identify it. */
  lemma NameFacts(t: Tag)
    ensures IsName(TagName(t))
    ensures TagOfKey(TagName(t)[..4]) == Some(t)
  {
    match t
    case ErrorTag => assert TagName(t)[..4] == "erro";
    case CanvasTag => assert TagName(t)[..4] == "canv";
    case ArtistTag => assert TagName(t)[..4] == "arti";
    case ColorTag => assert TagName(t)[..4] == "colo";
    case NavigationTag => assert TagName(t)[..4] == "navi";
    case PlaybackTag => assert TagName(t)[..4] == "play";
    case ControlTag => assert TagName(t)[..4] == "cont";
    case ConnectionTag => assert TagName(t)[..4] == "conn";
    case DisplayTag => assert TagName(t)[..4] == "disp";
    case SearchTag => assert TagName(t)[..4] == "sear";
    case NormalTag => assert TagName(t)[..4] == "norm";
  }

  /** A closing marker holds no opening marker. */
  lemma CloseHoldsNoOpen(a: string, b: string)
    requires IsName(a) && IsName(b)
    ensures !Contains(CloseMarker(a), OpenMarker(b))
    ensures Replace(CloseMarker(a), OpenMarker(b), "") == CloseMarker(a)
  {
    var c := CloseMarker(a);
    var o := OpenMarker(b);
    assert c[1..] == "/" + a + ">";
    assert NoChar(c[1..], '<');
    ContainsSkip(c[1..], [], o);
    assert c[1..] + [] == c[1..];
    if |o| <= |c| {
      assert c[..|o|][1] == '/' != o[1];
    }
    ReplaceIdentity(c[1..], o, "");
  }

  /** A marker starts with `<`, and neither `<` nor `]` occurs after that. */
  lemma MarkerChars(a: string)
    requires IsName(a)
    ensures OpenMarker(a)[0] == '<' && CloseMarker(a)[0] == '<'
    ensures NoChar(OpenMarker(a)[1..], '<') && NoChar(OpenMarker(a)[1..], ']')
    ensures NoChar(CloseMarker(a)[1..], '<') && NoChar(CloseMarker(a)[1..], ']')
  {
    assert OpenMarker(a)[1..] == a + ">";
    assert CloseMarker(a)[1..] == "/" + a + ">";
  }

  /** No marker of any category occurs in `s`. */
  predicate MarkerFree(s: string) {
    forall u: Tag :: !Contains(s, Open(u)) && !Contains(s, Close(u))
  }

  /** A marker-free timestamp and message make a marker-free entry body:
      no marker can straddle the brackets around the timestamp. */
  lemma LineMarkerFree(ts: string, message: string)
    requires MarkerFree(ts) && MarkerFree(message)
    ensures MarkerFree(Line(ts, message))
  {
    var head, tail := "[" + ts, "] " + message;
    assert Line(ts, message) == head + tail;
    forall u: Tag
      ensures !Contains(Line(ts, message), Open(u)) && !Contains(Line(ts, message), Close(u))
    {
      NameFacts(u);
      MarkerChars(TagName(u));
      LineFreeOf(ts, message, Open(u));
      LineFreeOf(ts, message, Close(u));
    }
  }

  lemma LineFreeOf(ts: string, message: string, m: string)
    requires |m| > 0 && m[0] == '<' && NoChar(m[1..], ']')
    requires !Contains(ts, m) && !Contains(message, m)
    ensures !Contains(Line(ts, message), m)
  {
    var head, tail := "[" + ts, "] " + message;
    assert Line(ts, message) == head + tail;
    ContainsSplit(head, tail, m);
    ContainsSkip("[", ts, m);
    ContainsSkip("] ", message, m);
  }

  /** An entry named `a` whose body holds no opening marker of `b` holds
      the opening marker of `a`, and that of `b` only when the first four
      letters agree. */
  lemma MarkersIn(a: string, body: string, b: string)
    requires IsName(a) && IsName(b) && !Contains(body, OpenMarker(b))
    ensures Contains(OpenMarker(a) + body + CloseMarker(a), OpenMarker(a))
    ensures a[..4] != b[..4] ==> !Contains(OpenMarker(a) + body + CloseMarker(a), OpenMarker(b))
  {
    var oa := OpenMarker(a);
    var ca := CloseMarker(a);
    var s := oa + body + ca;
    var o := OpenMarker(b);
    assert s[..|oa|] == oa;
    if a[..4] != b[..4] {
      if |o| <= |s| {
        assert s[..|o|][1..5] == a[..4];
        assert o[1..5] == b[..4];
      }
      assert s == oa + (body + ca);
      assert s[1..] == oa[1..] + (body + ca);
      MarkerChars(a);
      MarkerChars(b);
      ContainsSkip(oa[1..], body + ca, o);
      ContainsSplit(body, ca, o);
      CloseHoldsNoOpen(a, b);
      assert Contains(s, o) == Contains(s[1..], o);
    }
  }

  /** Removing the markers of `a` from such an entry leaves the body. */
  lemma MarkersStrip(a: string, body: string)
    requires IsName(a) && !Contains(body, OpenMarker(a)) && !Contains(body, CloseMarker(a))
    ensures Replace(Replace(OpenMarker(a) + body + CloseMarker(a), OpenMarker(a), ""),
      CloseMarker(a), "") == body
  {
    var o := OpenMarker(a);
    var c := CloseMarker(a);
    var s := o + body + c;
    MarkerChars(a);
    assert s[..|o|] == o && s[|o|..] == body + c;
    assert Replace(s, o, "") == Replace(body + c, o, "");
    ReplaceSplit(body, c, o, "");
    CloseHoldsNoOpen(a, a);
    assert Replace(s, o, "") == body + c;
    ReplaceSplit(body, c, c, "");
    assert c[..|c|] == c && c[|c|..] == [];
    assert Replace(c, c, "") == "" + Replace([], c, "");
    assert Replace(c, c, "") == [];
    assert body + [] == body;
  }

  /** In an entry of category `t`, the renderer finds `t`'s marker and no other. */
  lemma TaggedMarkers(t: Tag, body: string, u: Tag)
    requires MarkerFree(body)
    ensures Contains(Open(t) + body + Close(t), Open(u)) <==> u == t
  {
    NameFacts(t);
    NameFacts(u);
    assert !Contains(body, Open(u));
    MarkersIn(TagName(t), body, TagName(u));
  }

  lemma TaggedStrips(t: Tag, body: string)
    requires MarkerFree(body)
    ensures Replace(Replace(Open(t) + body + Close(t), Open(t), ""), Close(t), "") == body
  {
    NameFacts(t);
    assert !Contains(body, Open(t)) && !Contains(body, Close(t));
    MarkersStrip(TagName(t), body);
  }

  /** The renderer's scan, started no later than the entry's own category,
      stops at it. */
  lemma {:induction false} StripFromTagged(t: Tag, body: string, k: nat)
    requires MarkerFree(body) && k <= TagIndex(t)
    ensures StripFrom(Open(t) + body + Close(t), k) == (Some(t), body)
    decreases TagIndex(t) - k
  {
    TaggedMarkers(t, body, Tags[k]);
    if k == TagIndex(t) {
      TaggedStrips(t, body);
    } else {
      StripFromTagged(t, body, k + 1);
    }
  }

  /** Tagging then rendering round-trips: for a timestamp and message that
      hold no category marker (they may hold other `<` text, such as an
      exception's message), the renderer finds the category `add_log`
      chose and draws exactly `"[ts] message"`. */
  lemma TagStripRoundTrip(ts: string, message: string)
    requires MarkerFree(ts) && MarkerFree(message)
    ensures Strip(Tagged(ts, message)) == (Some(Classify(message)), Line(ts, message))
  {
    var body := Line(ts, message);
    LineMarkerFree(ts, message);
    StripFromTagged(Classify(message), body, 0);
  }
}
