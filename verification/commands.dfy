/** The websocket command layer: how a client message is split into a
    command and its data, which handler answers it, and the small playback
    decisions (previous, pause/resume, shuffle, repeat). Calls into the
    Spotify client are parameters: what a read returned (`None` when it
    raised) and whether an action went through. */
module Commands {
  import opened Text
  import opened Optional

  // ---- Tokenising ----

  /** A message after tokenising: the command and, when there was more
      than one word, the rest re-joined with spaces. */
  datatype Parsed = Parsed(received: string, data: Option<string>)

  /** As written: the message loses one trailing space and is split at
      spaces; a message of one word keeps its raw text as the command. */
  function Tokenise(message: string): (p: Parsed)
    ensures p.data.None? <==> NoChar(RemoveSuffix(message, " "), ' ')
    ensures p.data.None? ==> p.received == message
    ensures p.data.Some? ==>
      NoChar(p.received, ' ') && p.received + " " + p.data.value == RemoveSuffix(message, " ")
  {
    var parsed := Split(RemoveSuffix(message, " "), ' ');
    if |parsed| < 2 then Parsed(message, None)
    else
      JoinTail(RemoveSuffix(message, " "), ' ');
      Parsed(parsed[0], Some(Join(parsed[1..], ' ')))
  }

  /** Re-joining a split of at least two parts puts the first part, a
      separator and the re-joined rest back together. */
  lemma JoinTail(s: string, sep: char)
    requires |Split(s, sep)| >= 2
    ensures Split(s, sep)[0] + [sep] + Join(Split(s, sep)[1..], sep) == s
  {
    JoinSplit(s, sep);
  }

  /** The command name as intended: the first word, whether or not a
      trailing space was sent. */
  function TokeniseStripped(message: string): (p: Parsed)
    ensures NoChar(p.received, ' ')
    ensures p.data == Tokenise(message).data
    ensures p.data.Some? ==> p.received == Tokenise(message).received
    ensures p.data.None? ==> p.received == RemoveSuffix(message, " ")
  {
    var parsed := Split(RemoveSuffix(message, " "), ' ');
    if |parsed| < 2 then Parsed(RemoveSuffix(message, " "), None)
    else Tokenise(message)
  }

  /** With the fix, a one-word command with a trailing space is the same
      command as without it. */
  lemma TrailingSpaceIgnored(word: string)
    requires NoChar(word, ' ')
    ensures TokeniseStripped(word + " ") == TokeniseStripped(word) == Parsed(word, None)
  {
    assert (word + " ")[|word + " "| - 1..] == " ";
    assert RemoveSuffix(word + " ", " ") == word;
    if |word| >= 1 {
      assert word[|word| - 1] != ' ';
      assert word[|word| - 1..] != " ";
    }
    assert RemoveSuffix(word, " ") == word;
  }

  // ---- Routing ----

  /** Who answers a command. `Silent` is a handler that matches no case
      and answers with the empty payload; `Unknown` is the catch-all. */
  datatype Handler =
    | CurrentInfo | CurrentTrack | CurrentStates
    | Next | Previous | Play
    | PauseResume | Shuffle | Repeat
    | ListPlaylists | Search | ListQueue
    | DisplayAlbum | DisplayPlaylist | DisplayArtist
    | CanvasVideo | ArtistImage | TrackColorCmd
    | Silent | Unknown

  /** The command each real handler answers. */
  function CommandOf(h: Handler): string {
    match h
    case CurrentInfo => "current_info"
    case CurrentTrack => "current_track"
    case CurrentStates => "current_states"
    case Next => "next"
    case Previous => "previous"
    case Play => "play"
    case PauseResume => "pause"
    case Shuffle => "shuffle"
    case Repeat => "repeat"
    case ListPlaylists => "list_playlists"
    case Search => "search"
    case ListQueue => "list_queue"
    case DisplayAlbum => "display_album"
    case DisplayPlaylist => "display_playlist"
    case DisplayArtist => "display_artist"
    case CanvasVideo => "get_canvas_video"
    case ArtistImage => "get_artist_image"
    case TrackColorCmd => "get_track_color"
    case Silent => ""
    case Unknown => ""
  }

  /** The first routing group: as written, and as intended. */
  const InfoGroup: seq<string> := ["current_info", "current_song", "current_states"]
  const InfoGroupIntended: seq<string> := ["current_info", "current_track", "current_states"]

  /** The other groups of the message loop, in its order. */
  const TrackSteps: seq<string> := ["next", "previous", "play"]
  const Modes: seq<string> := ["pause", "resume", "shuffle", "repeat"]
  const Listings: seq<string> := ["list_playlists", "search", "list_queue"]
  const Displays: seq<string> := ["display_album", "display_playlist", "display_artist"]
  const Media: seq<string> := ["get_canvas_video", "get_artist_image", "get_track_color"]

  /** `display_current_info`'s cases. */
  function InfoCase(received: string): Handler {
    if received == "current_info" then CurrentInfo
    else if received == "current_track" then CurrentTrack
    else if received == "current_states" then CurrentStates
    else Silent
  }

  /** The `if`/`elif` chain of the message loop, with the first group
      given, followed by the case match of the handler function it picks. */
  function RouteWith(infoGroup: seq<string>, received: string): Handler {
    if received in infoGroup then InfoCase(received)
    else if received in TrackSteps then
      (if received == "next" then Next else if received == "previous" then Previous else Play)
    else if received in Modes then
      (if received == "shuffle" then Shuffle else if received == "repeat" then Repeat else PauseResume)
    else if received in Listings then
      (if received == "list_playlists" then ListPlaylists else if received == "search" then Search else ListQueue)
    else if received in Displays then
      (if received == "display_album" then DisplayAlbum
       else if received == "display_playlist" then DisplayPlaylist else DisplayArtist)
    else if received in Media then
      (if received == "get_canvas_video" then CanvasVideo
       else if received == "get_artist_image" then ArtistImage else TrackColorCmd)
    else Unknown
  }

  /** The nineteen command names the message loop lists, given its first
      group. */
  function Listed(infoGroup: seq<string>): seq<string> {
    infoGroup + TrackSteps + Modes + Listings + Displays + Media
  }

  /** The router as written: an unlisted command gets the catch-all,
      `current_song` alone is answered silently, and every other listed
      command reaches the handler of its own name (`resume` that of
      `pause`). */
  function Route(received: string): (h: Handler)
    ensures h == Unknown <==> received !in Listed(InfoGroup)
    ensures h == Silent <==> received == "current_song"
    ensures h != Unknown && h != Silent ==> CommandOf(h) == received || (h == PauseResume && received == "resume")
  {
    RouteWith(InfoGroup, received)
  }

  /** The router with `current_track` in the first group. */
  function RouteIntended(received: string): (h: Handler)
    ensures h != Silent
    ensures h == Unknown <==> received !in Listed(InfoGroupIntended)
    ensures h != Unknown ==> CommandOf(h) == received || (h == PauseResume && received == "resume")
  {
    RouteWith(InfoGroupIntended, received)
  }

  /** The fix touches only the two names of the first group that differ:
      every other message is routed the same way. */
  lemma RoutesAgreeElsewhere(received: string)
    requires received != "current_song" && received != "current_track"
    ensures Route(received) == RouteIntended(received)
  {
  }

  /** As written, `current_song` is routed to a function with no case for
      it and gets an empty answer, while `current_track` has a case that
      no message can reach. */
  lemma CurrentTrackUnreachable()
    ensures Route("current_song") == Silent
    ensures Route("current_track") == Unknown
    ensures forall m :: Route(m) != CurrentTrack
  {
  }

  /** With the intended group every handler is reached by its own command
      and nothing answers silently. */
  lemma EveryHandlerReachable(h: Handler)
    requires h != Unknown && h != Silent
    ensures RouteIntended(CommandOf(h)) == h
  {
    if h in {CurrentInfo, CurrentTrack, CurrentStates} { InfoReachable(h); }
    else if h in {Next, Previous, Play} { TrackStepReachable(h); }
    else if h in {PauseResume, Shuffle, Repeat} { ModeReachable(h); }
    else if h in {ListPlaylists, Search, ListQueue} { ListingReachable(h); }
    else if h in {DisplayAlbum, DisplayPlaylist, DisplayArtist} { DisplayReachable(h); }
    else { MediaReachable(h); }
  }

  lemma InfoReachable(h: Handler)
    requires h in {CurrentInfo, CurrentTrack, CurrentStates}
    ensures RouteIntended(CommandOf(h)) == h
  {
    match h
    case CurrentInfo => assert "current_info" == InfoGroupIntended[0];
    case CurrentTrack => assert "current_track" == InfoGroupIntended[1];
    case CurrentStates => assert "current_states" == InfoGroupIntended[2];
  }

  lemma TrackStepReachable(h: Handler)
    requires h in {Next, Previous, Play}
    ensures RouteIntended(CommandOf(h)) == h
  {
    match h
    case Next => assert RouteIntended("next") == Next;
    case Previous => assert RouteIntended("previous") == Previous;
    case Play => assert RouteIntended("play") == Play;
  }

  lemma ModeReachable(h: Handler)
    requires h in {PauseResume, Shuffle, Repeat}
    ensures RouteIntended(CommandOf(h)) == h
  {
    match h
    case PauseResume => assert RouteIntended("pause") == PauseResume;
    case Shuffle => assert RouteIntended("shuffle") == Shuffle;
    case Repeat => assert RouteIntended("repeat") == Repeat;
  }

  lemma ListingReachable(h: Handler)
    requires h in {ListPlaylists, Search, ListQueue}
    ensures RouteIntended(CommandOf(h)) == h
  {
    match h
    case ListPlaylists => assert RouteIntended("list_playlists") == ListPlaylists;
    case Search => assert RouteIntended("search") == Search;
    case ListQueue => assert RouteIntended("list_queue") == ListQueue;
  }

  lemma DisplayReachable(h: Handler)
    requires h in {DisplayAlbum, DisplayPlaylist, DisplayArtist}
    ensures RouteIntended(CommandOf(h)) == h
  {
    match h
    case DisplayAlbum => assert RouteIntended("display_album") == DisplayAlbum;
    case DisplayPlaylist => assert RouteIntended("display_playlist") == DisplayPlaylist;
    case DisplayArtist => assert RouteIntended("display_artist") == DisplayArtist;
  }

  lemma MediaReachable(h: Handler)
    requires h in {CanvasVideo, ArtistImage, TrackColorCmd}
    ensures RouteIntended(CommandOf(h)) == h
  {
    match h
    case CanvasVideo => assert RouteIntended("get_canvas_video") == CanvasVideo;
    case ArtistImage => assert RouteIntended("get_artist_image") == ArtistImage;
    case TrackColorCmd => assert RouteIntended("get_track_color") == TrackColorCmd;
  }

  /** As written, a one-word command sent with a trailing space is not
      recognised, whatever the word; with the fix it is routed as the
      word alone. */
  lemma TrailingSpaceUnknown(word: string)
    requires NoChar(word, ' ')
    ensures Tokenise(word + " ") == Parsed(word + " ", None)
    ensures Route(Tokenise(word + " ").received) == Unknown
    ensures Route(TokeniseStripped(word + " ").received) == Route(word)
  {
    TrailingSpaceKept(word);
    SpacedWordUnknown(word);
    TrailingSpaceIgnored(word);
  }

  /** As written, a one-word message with a trailing space keeps the space
      in the command word. */
  lemma TrailingSpaceKept(word: string)
    requires NoChar(word, ' ')
    ensures Tokenise(word + " ") == Parsed(word + " ", None)
  {
    assert (word + " ")[|word + " "| - 1..] == " ";
    assert RemoveSuffix(word + " ", " ") == word;
  }

  /** No command name ends in a space. */
  lemma SpacedWordUnknown(word: string)
    ensures Route(word + " ") == Unknown
  {
    var m := word + " ";
    assert m[|m| - 1] == ' ';
  }

  /** A concrete case: `next` with a trailing space. */
  lemma SpacedNextUnknown()
    ensures Route(Tokenise("next ").received) == Unknown
    ensures Route(TokeniseStripped("next ").received) == Next
  {
    assert "next" + " " == "next ";
    assert NoChar("next", ' ');
    TrailingSpaceUnknown("next");
  }

  // ---- Playback decisions ----

  /** What the client is asked to do. */
  datatype Action = SeekToStart | SkipBack | PausePlayback | StartPlayback | SetShuffle(on: bool) | SetRepeat(mode: string)

  /** What goes back to the websocket client: a fixed text, or the
      playback-state report with one field overridden. */
  datatype Answer = Reply(text: string) | StatesWith(field: string, value: string)

  /** The "previous" branch: `progress` is the playback position read
      (`None` when the read failed). Past 4 seconds, seek to the start;
      otherwise go to the previous track. */
  function PreviousAction(progress: Option<int>): (a: Option<Action>)
    ensures a.None? <==> progress.None?
    ensures progress.Some? ==> (a == Some(SeekToStart) <==> progress.value > 4000)
    ensures progress.Some? ==> (a == Some(SkipBack) <==> progress.value <= 4000)
  {
    match progress
    case None => None
    case Some(ms) => if ms > 4000 then Some(SeekToStart) else Some(SkipBack)
  }

  function PreviousAnswer(progress: Option<int>, actionOk: bool): (r: Answer)
    ensures r == Reply("[PREVIOUS SONG]") <==> progress.Some? && actionOk
    ensures r != Reply("[PREVIOUS SONG]") ==> r == Reply("[ERROR] Error going to previous song")
  {
    if progress.Some? && actionOk then Reply("[PREVIOUS SONG]")
    else Reply("[ERROR] Error going to previous song")
  }

  /** Pause and resume: the action depends only on whether the track is
      playing (a failed read counts as not playing), never on which of the
      two commands was sent. */
  function ToggleAction(isPlaying: Option<bool>): (a: Action)
    ensures a == PausePlayback <==> isPlaying == Some(true)
    ensures a == StartPlayback <==> isPlaying != Some(true)
  {
    if isPlaying.GetOr(false) then PausePlayback else StartPlayback
  }

  /** The answer to pause/resume reports the playing state after the
      action: the negation of the one read. */
  function ToggleAnswer(isPlaying: Option<bool>, actionOk: bool): (r: Answer)
    ensures actionOk ==> r == StatesWith("playing", BoolText(ToggleAction(isPlaying) == StartPlayback))
    ensures !actionOk ==> r == Reply("[ERROR] Error pausing/resuming playback")
  {
    if !actionOk then Reply("[ERROR] Error pausing/resuming playback")
    else StatesWith("playing", if isPlaying.GetOr(false) then "False" else "True")
  }

  /** Python's `str(b)`. */
  function BoolText(b: bool): string {
    if b then "True" else "False"
  }

  /** The effect of an action on the playing flag. */
  function PlayingAfter(a: Action, wasPlaying: bool): bool {
    if a == PausePlayback then false
    else if a == StartPlayback then true
    else wasPlaying
  }

  /** The toggle flips the playing state, and toggling twice comes back. */
  lemma ToggleFlips(playing: bool)
    ensures PlayingAfter(ToggleAction(Some(playing)), playing) == !playing
    ensures PlayingAfter(ToggleAction(Some(!playing)), !playing) == playing
  {
  }

  /** The shuffle branch: `shuffle` is the shuffle state read. */
  function ShuffleStep(shuffle: Option<bool>, actionOk: bool): (r: (Option<Action>, Answer))
    ensures shuffle.None? ==> r == (None, Reply("[ERROR] Error changing shuffle state"))
    ensures shuffle.Some? ==> r.0 == Some(SetShuffle(!shuffle.value))
    ensures shuffle.Some? && actionOk ==> r.1 == StatesWith("shuffle", BoolText(!shuffle.value))
    ensures shuffle.Some? && !actionOk ==> r.1 == Reply("[ERROR] Error changing shuffle state")
  {
    match shuffle
    case None => (None, Reply("[ERROR] Error changing shuffle state"))
    case Some(s) =>
      (Some(SetShuffle(!s)),
       if actionOk then StatesWith("shuffle", BoolText(!s)) else Reply("[ERROR] Error changing shuffle state"))
  }

  /** The shuffle flag after a step: the requested state when the call
      went through, the old one otherwise. */
  function ShuffleAfter(a: Option<Action>, actionOk: bool, was: bool): bool {
    if actionOk && a.Some? && a.value.SetShuffle? then a.value.on else was
  }

  /** Read, toggle, read again: a successful step reports exactly the state
      it set, which is the negation of the one read; a failed step changes
      nothing; two successful steps restore the first state and the second
      reports it. */
  lemma ShuffleReportsWhatItSets(s: bool, ok1: bool, ok2: bool)
    ensures var first := ShuffleStep(Some(s), ok1);
      var s1 := ShuffleAfter(first.0, ok1, s);
      && (ok1 <==> first.1 == StatesWith("shuffle", BoolText(s1)))
      && (ok1 ==> s1 == !s)
      && (!ok1 ==> s1 == s)
    ensures var s1 := ShuffleAfter(ShuffleStep(Some(s), ok1).0, ok1, s);
      var second := ShuffleStep(Some(s1), ok2);
      ok1 && ok2 ==> ShuffleAfter(second.0, ok2, s1) == s && second.1 == StatesWith("shuffle", BoolText(s))
  {
  }

  /** The repeat modes in the order the code lists them. */
  const RepeatStates: seq<string> := ["track", "context", "off"]

  /** Python's `list.index`: the first position, `None` for a `ValueError`. */
  function IndexOf(xs: seq<string>, x: string): (r: Option<nat>)
    ensures r.Some? ==> r.value < |xs| && xs[r.value] == x && forall j :: 0 <= j < r.value ==> xs[j] != x
    ensures r.None? ==> forall j :: 0 <= j < |xs| ==> xs[j] != x
    decreases |xs|
  {
    if |xs| == 0 then None
    else if xs[0] == x then Some(0)
    else match IndexOf(xs[1..], x)
      case None => None
      case Some(i) => Some(i + 1)
  }

  /** The repeat branch's choice of the next mode: "off" goes to the first
      mode, anything else to the mode after it; a mode not in the list
      raises. */
  function NextRepeat(mode: string): (r: Option<string>)
    ensures r.Some? ==> r.value in RepeatStates && r.value != mode
    ensures r.None? <==> mode !in RepeatStates
  {
    if mode == "off" then Some(RepeatStates[0])
    else match IndexOf(RepeatStates, mode)
      case None => None
      case Some(i) => if i + 1 < |RepeatStates| then Some(RepeatStates[i + 1]) else None
  }

  /** The cycle is off, track, context, off: three steps come back. */
  lemma RepeatCycle(mode: string)
    requires mode in RepeatStates
    ensures NextRepeat(mode).Some? && NextRepeat(NextRepeat(mode).value).Some?
    ensures NextRepeat(NextRepeat(NextRepeat(mode).value).value) == Some(mode)
  {
  }

  /** Python's `str.capitalize` on ASCII text. */
  function Capitalize(s: string): (r: string)
    ensures |r| == |s|
  {
    if |s| == 0 then s else [Upper(s[0])] + LowerAll(s[1..])
  }

  function Upper(c: char): char {
    if 'a' <= c <= 'z' then (c as int - 32) as char else c
  }

  function LowerAll(s: string): (r: string)
    ensures |r| == |s|
  {
    seq(|s|, i requires 0 <= i < |s| => if 'A' <= s[i] <= 'Z' then (s[i] as int + 32) as char else s[i])
  }

  /** The repeat branch: read the mode, ask for the next one, and report
      it capitalised; any failure gives the error text. */
  function RepeatStep(mode: Option<string>, actionOk: bool): (r: (Option<Action>, Answer))
    ensures mode.None? || NextRepeat(mode.value).None? ==> r == (None, Reply("[ERROR] Error changing repeat state"))
    ensures mode.Some? && NextRepeat(mode.value).Some? ==> r.0 == Some(SetRepeat(NextRepeat(mode.value).value))
    ensures r.1.StatesWith? <==> mode.Some? && NextRepeat(mode.value).Some? && actionOk
    ensures r.1.StatesWith? ==> r.1.field == "repeat" && r.1.value == Capitalize(NextRepeat(mode.value).value)
  {
    if mode.None? then (None, Reply("[ERROR] Error changing repeat state"))
    else match NextRepeat(mode.value)
      case None => (None, Reply("[ERROR] Error changing repeat state"))
      case Some(change) =>
        (Some(SetRepeat(change)),
         if actionOk then StatesWith("repeat", Capitalize(change)) else Reply("[ERROR] Error changing repeat state"))
  }

  /** The reported names of the three modes. */
  lemma RepeatReports()
    ensures RepeatStep(Some("off"), true).1 == StatesWith("repeat", "Track")
    ensures RepeatStep(Some("track"), true).1 == StatesWith("repeat", "Context")
    ensures RepeatStep(Some("context"), true).1 == StatesWith("repeat", "Off")
  {
    assert Capitalize("track") == "Track";
    assert Capitalize("context") == "Context";
    assert Capitalize("off") == "Off";
  }
}
