/** The now-playing panel's bookkeeping: the share of the track already
    played, the block arithmetic of the full progress bar, and the counter
    that drives the slide-in when the track changes. */
module NowPlaying {
  import opened Text

  /** `progress_percent`: progress over duration as a percentage, 0 unless
      both are positive. */
  function ProgressPercent(progress: int, length: int): (p: real)
    ensures p >= 0.0
    ensures progress <= 0 || length <= 0 ==> p == 0.0
    ensures 0 <= progress <= length ==> p <= 100.0
    ensures progress > 0 && length > 0 ==> p * length as real == progress as real * 100.0
  {
    if progress > 0 && length > 0 then progress as real / length as real * 100.0 else 0.0
  }

  /** The three block counts of the full progress bar. */
  datatype Blocks = Blocks(width: int, filled: int, empty: int)

  /** The bar gets what is left of `barWidth` after the two clocks and
      two spaces, at most 50 blocks; `int(...)` of the played share of it
      are filled. The panel computes blocks only when that width is
      non-negative (it is drawn from 5 blocks on), so the share is never
      negative and `int` is the floor. */
  function ProgressBlocks(barWidth: int, currentLen: int, totalLen: int, percent: real): (b: Blocks)
    requires percent >= 0.0
    requires barWidth - currentLen - totalLen - 2 >= 0
    ensures 0 <= b.width <= 50
    ensures b.width == barWidth - currentLen - totalLen - 2 || b.width == 50
    ensures b.filled + b.empty == b.width
    ensures b.filled >= 0
    ensures b.filled as real * 100.0 <= percent * b.width as real
    ensures percent * b.width as real < (b.filled + 1) as real * 100.0
  {
    var width := if barWidth - currentLen - totalLen - 2 < 50 then barWidth - currentLen - totalLen - 2 else 50;
    var filled := (percent / 100.0 * width as real).Floor;
    Blocks(width, filled, width - filled)
  }

  /** The full bar is drawn only when `barWidth` exceeds the clocks plus 6,
      which leaves it between 5 and 50 blocks; while the track has not
      overrun its duration, no block count is negative or too large. */
  lemma BarWithinBounds(barWidth: int, currentLen: int, totalLen: int, progress: int, length: int)
    requires barWidth > currentLen + totalLen + 6
    requires 0 <= progress <= length
    ensures var b := ProgressBlocks(barWidth, currentLen, totalLen, ProgressPercent(progress, length));
      5 <= b.width <= 50 && 0 <= b.filled <= b.width && 0 <= b.empty <= b.width
  {
    var p := ProgressPercent(progress, length);
    var b := ProgressBlocks(barWidth, currentLen, totalLen, p);
    var w := b.width as real;
    var share := p / 100.0;
    assert b.width >= 5 && 0.0 <= share <= 1.0;
    FractionOf(share, w);
    assert b.filled == (share * w).Floor;
  }

  /** Scaling by a non-negative width keeps the order. */
  lemma ScaleMonotone(a: real, b: real, w: real)
    requires a <= b && w >= 0.0
    ensures a * w <= b * w
  {
    assert (b - a) * w >= 0.0;
  }

  /** The whole part of a fraction between 0 and 1 of a non-negative
      width lies between 0 and the width. */
  lemma FractionOf(a: real, w: real)
    requires 0.0 <= a <= 1.0 && w >= 0.0
    ensures 0 <= (a * w).Floor && (a * w).Floor as real <= w
  {
    var x := a * w;
    assert 0.0 <= x by { assert a * w >= 0.0 * w; }
    assert x <= w by { assert (1.0 - a) * w >= 0.0; }
    FloorMonotone(0.0, x);
  }

  /** `int()` of a non-negative number, the floor, keeps the order. */
  lemma FloorMonotone(x: real, y: real)
    requires x <= y
    ensures x.Floor <= y.Floor
  {
  }

  /** More of the track played never fills fewer blocks. */
  lemma FilledGrowsWithProgress(barWidth: int, currentLen: int, totalLen: int, p: real, q: real)
    requires 0.0 <= p <= q
    requires barWidth - currentLen - totalLen - 2 >= 0
    ensures ProgressBlocks(barWidth, currentLen, totalLen, p).filled
      <= ProgressBlocks(barWidth, currentLen, totalLen, q).filled
  {
    var w := ProgressBlocks(barWidth, currentLen, totalLen, p).width as real;
    assert w == ProgressBlocks(barWidth, currentLen, totalLen, q).width as real;
    ScaleMonotone(p / 100.0, q / 100.0, w);
    FloorMonotone(p / 100.0 * w, q / 100.0 * w);
  }

  /** The track-change animation: the names on show and the previous
      ones, the animation flags and frame counter, and `no_track_start_time`,
      the clock reading when the panel last saw a track or lost one. */
  datatype Anim = Anim(
    trackName: string, artistName: string,
    previousTrack: string, previousArtist: string,
    active: bool, frame: nat, complete: bool,
    noTrackSince: real)

  const MaxFrames := 20

  /** `blank_display_seconds`: how long the panel stays blank with no track. */
  const BlankSeconds: real := 10.0

  /** `start_animation`. */
  function StartAnimation(a: Anim): (a': Anim)
    ensures a'.active && a'.frame == 0 && !a'.complete
    ensures a'.trackName == a.trackName && a'.previousTrack == a.previousTrack
  {
    a.(active := true, frame := 0, complete := false)
  }

  /** What `render` does with a status that names a track: a new track
      name keeps the old names as the previous ones and restarts the
      animation; then the new names are shown, and the blank-display timer
      restarts at `now`. */
  function SeeTrack(a: Anim, track: string, artist: string, now: real): (a': Anim)
    ensures a'.trackName == track && a'.artistName == artist && a'.noTrackSince == now
    ensures track != a.trackName ==>
      a'.previousTrack == a.trackName && a'.previousArtist == a.artistName
      && a'.active && a'.frame == 0 && !a'.complete
    ensures track == a.trackName ==>
      a'.previousTrack == a.previousTrack && a'.previousArtist == a.previousArtist
      && a'.active == a.active && a'.frame == a.frame && a'.complete == a.complete
  {
    var a1 := if track != a.trackName
      then StartAnimation(a.(previousTrack := a.trackName, previousArtist := a.artistName))
      else a;
    a1.(trackName := track, artistName := artist, noTrackSince := now)
  }

  /** What `render` does with a status without a track: on losing a track
      the names become `-` and the blank-display timer restarts; the
      animation is left alone. */
  function SeeNoTrack(a: Anim, now: real): (a': Anim)
    ensures a'.trackName == "-" && a'.artistName == (if a.trackName != "-" then "-" else a.artistName)
    ensures a'.noTrackSince == if a.trackName != "-" then now else a.noTrackSince
    ensures a'.active == a.active && a'.frame == a.frame && a'.complete == a.complete
    ensures a'.previousTrack == a.previousTrack
  {
    if a.trackName != "-" then a.(trackName := "-", artistName := "-", noTrackSince := now) else a
  }

  // ---- The status line's icons ----

  const PlayIcon: string := "\U{25B6}"
  const PauseIcon: string := "\U{23F8} "
  const ShuffleIcon: string := "\U{1F500}"
  const RepeatTrackIcon: string := "\U{1F502}"
  const RepeatIcon: string := "\U{1F501}"

  /** The playback flags a render reads from the status (with no status:
      the last playing flag, no shuffle, repeat "off"). */
  datatype Flags = Flags(playing: bool, shuffle: bool, repeat: string)

  function StatusSymbol(f: Flags): string {
    if f.playing then PlayIcon else PauseIcon
  }

  /** `status_symbol`, `shuffle_symbol` and `repeat_symbol` run together. */
  function Symbols(f: Flags): string {
    StatusSymbol(f) + (if f.shuffle then ShuffleIcon else "")
    + (if f.repeat == "track" then RepeatTrackIcon else if f.repeat == "context" then RepeatIcon else "")
  }

  /** The text shown after the blank period with nothing playing. */
  function WaitingText(f: Flags): string {
    StatusSymbol(f) + " Nothing is playing - Waiting for Spotify data..."
  }

  /** The test of `render` for a name that already carries a status icon. */
  predicate HasStatusIcon(s: string) {
    Contains(s, PlayIcon) || Contains(s, PauseIcon)
  }

  /** A text that starts with the status symbol carries a status icon. */
  lemma StatusSymbolFirst(f: Flags, rest: string)
    ensures HasStatusIcon(StatusSymbol(f) + rest)
  {
    var s := StatusSymbol(f) + rest;
    assert s[..|StatusSymbol(f)|] == StatusSymbol(f);
  }

  /** The placeholder `-` carries no status icon. */
  lemma DashCarriesNoIcon()
    ensures !HasStatusIcon("-")
  {
    assert |PlayIcon| == 1 && PlayIcon[0] != '-';
    assert "-"[..1][0] == '-';
    assert "-"[1..] == "";
  }

  /** A previous name that the render leaves as it is: empty, or already
      carrying a status icon. */
  predicate Labelled(a: Anim) {
    a.previousTrack == "" || HasStatusIcon(a.previousTrack)
  }

  /** The rewrite of the previous name that `render` makes while an
      animation with a previous name runs: a `-` becomes empty during the
      blank period after the timer last restarted and the waiting text
      after it; any other name without a status icon is dressed like the
      status line. Only the previous name changes, and a labelled one is
      left alone. */
  function LabelPrevious(a: Anim, now: real, f: Flags): (a': Anim)
    ensures a' == a.(previousTrack := a'.previousTrack)
    ensures Labelled(a) ==> a' == a
    ensures a.active && !a.complete ==> Labelled(a')
    ensures a.active && !a.complete && a.previousTrack == "-" ==>
      (a'.previousTrack == "" <==> now - a.noTrackSince < BlankSeconds)
    ensures a.active && !a.complete && a.previousTrack != "" && a.previousTrack != "-" ==>
      a'.previousTrack != ""
      && (a'.previousTrack == a.previousTrack
          || a'.previousTrack == Symbols(f) + " " + a.previousTrack + " - " + a.previousArtist)
  {
    if a.active && a.previousTrack != "" && !a.complete then
      if a.previousTrack == "-" then
        DashCarriesNoIcon();
        if now - a.noTrackSince < BlankSeconds then a.(previousTrack := "")
        else
          (StatusSymbolFirst(f, " Nothing is playing - Waiting for Spotify data...");
           a.(previousTrack := WaitingText(f)))
      else if !HasStatusIcon(a.previousTrack) then
        (var dressed := Symbols(f) + " " + a.previousTrack + " - " + a.previousArtist;
         StatusSymbolFirst(f, dressed[|StatusSymbol(f)|..]);
         assert dressed == StatusSymbol(f) + dressed[|StatusSymbol(f)|..];
         a.(previousTrack := dressed))
      else a
    else a
  }

  /** What a render reads from the status. */
  datatype Seen = NoStatus | NoItem | Playing(track: string, artist: string)

  /** One call of `render` at clock reading `now`: the names from the
      status, then the rewrite of the previous name, then `animate_text`. */
  function Render(a: Anim, seen: Seen, now: real, f: Flags): (a': Anim)
    ensures seen.NoStatus? ==> a'.trackName == a.trackName
    ensures seen.NoItem? ==> a'.trackName == "-"
    ensures seen.Playing? ==> a'.trackName == seen.track && a'.noTrackSince == now
  {
    var a1 := match seen
      case NoStatus => a
      case NoItem => SeeNoTrack(a, now)
      case Playing(t, artist) => SeeTrack(a, t, artist, now);
    AnimateStep(LabelPrevious(a1, now, f))
  }

  /** A track that follows the empty display does not slide in: the timer
      restarted in the same render, so the previous name `-` becomes empty
      and `animate_text` marks the animation complete at once. */
  lemma TrackAfterBlankShownAtOnce(a: Anim, track: string, artist: string, now: real, f: Flags)
    requires a.trackName == "-" && track != "-"
    ensures var a' := Render(a, Playing(track, artist), now, f);
      a'.trackName == track && a'.previousTrack == "" && a'.complete && a'.frame == 0
  {
    var a1 := SeeTrack(a, track, artist, now);
    assert a1.previousTrack == "-" && a1.noTrackSince == now;
    var a2 := LabelPrevious(a1, now, f);
    assert a2.previousTrack == "";
  }

  /** A change from one track to another starts the slide: after the
      first render the animation runs at frame 1 with a labelled,
      non-empty previous name. */
  lemma TrackChangeSlides(a: Anim, track: string, artist: string, now: real, f: Flags)
    requires a.trackName != "-" && a.trackName != "" && track != a.trackName
    ensures var a' := Render(a, Playing(track, artist), now, f);
      a'.trackName == track && a'.active && !a'.complete && a'.frame == 1
      && a'.previousTrack != "" && Labelled(a')
  {
    var a1 := SeeTrack(a, track, artist, now);
    var a2 := LabelPrevious(a1, now, f);
    assert a2.previousTrack != "" && Labelled(a2);
  }

  /** Once the previous name is labelled, a render that sees the same
      track again is one step of `animate_text` and nothing else. */
  lemma SteadyRenderIsStep(a: Anim, now: real, f: Flags)
    requires Labelled(a)
    ensures Render(a, Playing(a.trackName, a.artistName), now, f) == AnimateStep(a.(noTrackSince := now))
  {
    var a1 := SeeTrack(a, a.trackName, a.artistName, now);
    assert a1 == a.(noTrackSince := now);
  }

  /** One call of `animate_text`: a running animation with a previous
      name advances one frame and stops after the last; one without a
      previous name is marked complete at once. */
  function AnimateStep(a: Anim): (a': Anim)
    ensures !a.active || a.complete ==> a' == a
    ensures a'.trackName == a.trackName && a'.previousTrack == a.previousTrack
    ensures a.active && !a.complete && a.previousTrack != "" && a.frame < MaxFrames ==>
      a'.frame == a.frame + 1 && (a'.active <==> a'.frame < MaxFrames) && (a'.complete <==> a'.frame >= MaxFrames)
    ensures a.active && !a.complete && !(a.previousTrack != "" && a.frame < MaxFrames) ==>
      a'.complete && a'.frame == a.frame
  {
    if !a.active || a.complete then a
    else if a.previousTrack != "" && a.frame < MaxFrames then
      var f := a.frame + 1;
      if f >= MaxFrames then a.(frame := f, active := false, complete := true)
      else a.(frame := f)
    else a.(complete := true)
  }

  /** `n` renders in a row. */
  function Renders(a: Anim, n: nat): Anim
    decreases n
  {
    if n == 0 then a else Renders(AnimateStep(a), n - 1)
  }

  /** After a track change with a previous name, the animation runs for
      exactly `MaxFrames` renders: frame `k` is shown at render `k`, and
      after the last one the animation is over and stays over. */
  lemma {:induction false} AnimationRunsItsFrames(a: Anim, k: nat)
    requires a.active && !a.complete && a.previousTrack != "" && a.frame == 0
    requires k <= MaxFrames
    ensures Renders(a, k).frame == k
    ensures Renders(a, k).active <==> k < MaxFrames
    ensures Renders(a, k).complete <==> k == MaxFrames
    ensures Renders(a, k).trackName == a.trackName
    ensures Renders(a, k).previousTrack == a.previousTrack
  {
    if k > 0 {
      RendersSplit(a, k - 1);
      AnimationRunsItsFrames(a, k - 1);
    }
  }

  /** The last render is one step after the ones before it. */
  lemma {:induction false} RendersSplit(a: Anim, n: nat)
    ensures Renders(a, n + 1) == AnimateStep(Renders(a, n))
    decreases n
  {
    if n > 0 {
      RendersSplit(AnimateStep(a), n - 1);
    }
  }

  /** Once finished, further renders change nothing. */
  lemma {:induction false} FinishedStaysFinished(a: Anim, n: nat)
    requires !a.active || a.complete
    ensures Renders(a, n) == a
    decreases n
  {
    if n > 0 {
      FinishedStaysFinished(AnimateStep(a), n - 1);
    }
  }
}
