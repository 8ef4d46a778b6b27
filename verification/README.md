# ResoniteSpotipy in Dafny

A model of the core of ResoniteSpotipy. The program is a websocket bridge: it
lets a Resonite world control Spotify playback, and it shows a curses
dashboard while doing so. The model covers three parts.

- **The album-colour pipeline** (`spotify_color.py`). It covers:
  - `rgb_to_hsv` and the HSV distance;
  - the `most_common` tail of `get_dominant_colors`;
  - the vibrant-colour scan `get_saturated_color`;
  - the nearest-palette mapper `rgb_to_curses_color`;
  - the `COLOR_CACHE` shared by `get_color_for_album` and `get_dominant_color`;
  - `update_border_color` and `process_current_track`, over the shared cache as written and over split caches.
- **The dashboard's pure parts** (`resonite_ui.py`). It covers:
  - `ms_to_hms` and `truncate`;
  - the category tagging of `add_log`, its 100-entry buffer, and the renderer's tag stripping;
  - the panel layouts of the three `restart` methods;
  - the progress percentage and block counts;
  - the track-change slide-in: the names a render takes from the status, the rewrite of the previous name, and the frame counter;
  - `check_resize`.
- **The command layer** (`ResoniteSpotipy.py`). It covers:
  - message tokenising and the `if`/`elif` routing;
  - the `previous`, pause/resume, shuffle and repeat decisions;
  - the `IDs.txt` template and its placeholder check;
  - the settings parser and its port check;
  - the `TRACK_CACHE` memo behind `get_spotify_canvas` and `get_artist_image`;
  - the media replies.

Every operation is a pure function. The outside world is passed in as
parameters: the HTTP fetches, the clustering of the image, the Spotify client
calls and the clock. Global dictionaries (`COLOR_CACHE`, `TRACK_CACHE`) are
passed in and returned. Colour arithmetic is exact rational arithmetic over
`real`.

The modules, one per file:

| file | module | source |
|---|---|---|
| `optional.dfy` | `Optional` | helper datatype |
| `text.dfy` | `Text` | Python's `in`, `replace`, `split`, `join`, `removesuffix`, `readlines`, decimal and hex digits |
| `color_space.dfy` | `ColorSpace` | `rgb_to_hsv`, `color_distance_hsv` |
| `palette.dfy` | `Palette` | `CURSES_COLORS`, `rgb_to_curses_color` |
| `histogram.dfy` | `Histogram` | `get_dominant_colors` |
| `vibrancy.dfy` | `Vibrancy` | `get_saturated_color` |
| `color_cache.dfy` | `ColorCache` | `COLOR_CACHE`, `get_color_for_album`, `get_dominant_color`, the `get_track_color` reply |
| `track_color.dfy` | `TrackColor` | `update_border_color`, `process_current_track` |
| `log_window.dfy` | `LogWindow` | `LogWindow.add_log`, `LogWindowComponent.render` |
| `ui_format.dfy` | `UiFormat` | `ms_to_hms`, `truncate` |
| `layout.dfy` | `Layout` | the `restart` methods, `available_lines`, `check_resize` |
| `now_playing.dfy` | `NowPlaying` | progress, blocks and animation of `NowPlayingComponent` |
| `commands.dfy` | `Commands` | `socket`, `modify_current_track`, `modify_playback_states` |
| `credentials.dfy` | `Credentials` | `check_ids_file`, `connect_to_spotify` |
| `track_cache.dfy` | `TrackCache` | `TRACK_CACHE`, `get_spotify_canvas`, `get_artist_image`, the media replies |

Points where the code's behaviour is easy to misread:

- **One colour cache for two writers.** The code keeps one `COLOR_CACHE` for
  both `get_color_for_album` and `get_dominant_color`. The model keeps it as
  written in `ColorCache` and `TrackColor`, and also gives the corrected
  version with one cache per writer. The consequences are listed under
  Findings.
- **Lower-case hex.** The code formats the colour with `{:02x}`, which gives
  lower-case digits. `HexColor` does the same.
- **Dark colours.** The most prevalent colour is the default. It is returned
  whenever no swatch is pigmented, however dark it is and however many
  candidates there are. `DarkOnlyAsFallback` states exactly when that
  happens.
- **The near-white filter.** The saturation gate already excludes every
  near-white swatch, so that filter never decides anything on its own
  (`PigmentedIff`).

## Model

| member | source | states |
|---|---|---|
| ColorSpace.RgbToHsv | spotify_color.py:136-148 | hue lies in [0, 1); saturation and value lie in [0, 1] |
| ColorSpace.HsvValue | spotify_color.py:145-147 | value is the largest channel divided by 255 |
| ColorSpace.HsvGrey | spotify_color.py:145-147 | saturation is 0 exactly for greys (all channels equal), whose hue is 0 |
| ColorSpace.HueDistance | spotify_color.py:272 | the circular hue distance lies in [0, 0.5] and is 0 exactly for equal hues |
| ColorSpace.HueDistanceSymmetric | spotify_color.py:272 | the hue distance does not depend on argument order |
| ColorSpace.HueDistanceRotation | spotify_color.py:272 | turning both hues by the same amount keeps their distance (the distance is circular) |
| ColorSpace.HueWrapAround | spotify_color.py:272 | hues 0.05 and 0.95 are nearer to each other than 0.05 is to 0.5 |
| ColorSpace.HsvDistanceZero | spotify_color.py:275-276 | the weighted distance is non-negative and 0 exactly between equal HSV triples |
| ColorSpace.ColorDistance | spotify_color.py:253-278 | the distance between two RGB colours lies in [0, 0.7] |
| ColorSpace.DistanceSymmetric | spotify_color.py:253-278 | the colour distance is symmetric |
| ColorSpace.DistanceZero | spotify_color.py:253-278 | two colours are at distance 0 exactly when their HSV forms are equal |
| Palette.Reported | spotify_color.py:303-319 | the reported constant is never black: black becomes white, every other entry stands for itself |
| Palette.NearestFrom | spotify_color.py:289-300 | the scan with strict `<` ends on the reported name of the first entry nearest to the colour |
| Palette.RgbToCurses | spotify_color.py:280-322 | never black, and always the reported name of a first nearest palette entry |
| Palette.RgbToCursesIsNearest | spotify_color.py:280-322 | for any first-nearest position, the mapper answers that entry's reported name (the answer is unique) |
| Palette.NearestBlackIsWhite | spotify_color.py:303-305 | a colour whose nearest entry is black is shown as white |
| Palette.TableHsvCorrect | spotify_color.py:59-68 | the exact HSV form of each of the eight reference colours |
| Palette.EntryNearestToItself | spotify_color.py:295-300 | each non-black reference colour is strictly nearer to itself than to any other entry |
| Palette.PaletteFixedPoint | spotify_color.py:280-322 | every non-black reference colour maps back to its own constant |
| Palette.PureRedMapsToRed | spotify_color.py:280-322 | (220, 0, 0) maps to red |
| Histogram.Distinct | spotify_color.py:179 | the `Counter` keys are pairwise distinct and are exactly the labels that occur |
| Histogram.DistinctOrder | spotify_color.py:179 | the keys come in order of each label's first occurrence |
| Histogram.Tally | spotify_color.py:179 | one bin per key, holding that label's pixel count |
| Histogram.TallyPositive | spotify_color.py:179 | no bin is empty |
| Histogram.TallyCountsAll | spotify_color.py:179 | the bins together count every pixel exactly once |
| Histogram.Insert | spotify_color.py:183 | inserting a bin adds exactly that bin (as a multiset) and its count |
| Histogram.InsertOrdered | spotify_color.py:183 | insertion keeps the `most_common` order: more pixels first, ties in key order |
| Histogram.Rank | spotify_color.py:183 | ranking is a permutation of the bins and keeps their total |
| Histogram.RankOrdered | spotify_color.py:183 | bins listed in key order are ranked into the `most_common` order |
| Histogram.RankedFacts | spotify_color.py:183 | the ranking has one bin per distinct label, correct counts, in `most_common` order |
| Histogram.MostCommon | spotify_color.py:183 | `most_common(n)` gives min(n, number of labels) bins, ordered, each with its label's true count |
| Histogram.MostCommonIsTop | spotify_color.py:183 | a label left out of `most_common(n)` has no more pixels than any label kept |
| Histogram.MostCommonCountsAll | spotify_color.py:183 | when every cluster fits within `n`, the kept bins count every pixel |
| Histogram.Swatches | spotify_color.py:183-186 | each swatch is its cluster's centre colour and its share of the pixels in percent |
| Histogram.SwatchesShares | spotify_color.py:185 | the shares add up to the kept pixels times 100 / total |
| Histogram.DominantColors | spotify_color.py:150-192 | an image that cannot be clustered gives the white 100% fallback; otherwise at most `n` swatches or the fallback |
| Histogram.SharesSumTo100 | spotify_color.py:183-192 | when every cluster fits within `n`, the percentages add up to 100 |
| Histogram.SharesDescending | spotify_color.py:183-186 | the swatches come most prevalent first |
| Vibrancy.ScanStep | spotify_color.py:244-247 | one step of the strict `>` scan keeps "first best so far, or still on the default" |
| Vibrancy.BestFrom | spotify_color.py:217-247 | the scan ends on the first best-scoring pigmented swatch, or on index 0 when none scores above 0 |
| Vibrancy.SaturatedColor | spotify_color.py:194-251 | white for no colours; the most prevalent colour when nothing scores; otherwise the first best-scoring colour |
| Vibrancy.SaturatedColorIsBest | spotify_color.py:244-251 | whenever a first-best position exists, that position's colour is returned |
| Vibrancy.FirstBestUnique | spotify_color.py:244-245 | the first best position is unique, so ties go to the earlier (more prevalent) swatch |
| Vibrancy.PigmentedIff | spotify_color.py:220-244 | a swatch passes the filters and the gate exactly when v >= 0.15 and s >= 0.15: the near-white filter never decides |
| Vibrancy.PigmentedScoresPositive | spotify_color.py:237-244 | a pigmented swatch with a non-negative share scores above the initial maximum 0 |
| Vibrancy.FallbackIffNonePigmented | spotify_color.py:209-247 | with non-negative shares, the most prevalent colour is the fallback exactly when no swatch is pigmented |
| Vibrancy.BestIsBright | spotify_color.py:220-223 | the chosen best swatch is never too dark |
| Vibrancy.DarkOnlyAsFallback | spotify_color.py:209-223 | a too-dark result only comes from the fallback to the most prevalent colour |
| Vibrancy.ScoreGrowsWithSaturation | spotify_color.py:237-240 | at equal value and share, more saturation scores strictly more |
| Vibrancy.ScorePeaksAtMidBrightness | spotify_color.py:237-240 | at equal saturation and share, value 0.7 scores highest |
| Vibrancy.RedCoverPicksRed | spotify_color.py:194-251 | 90% saturated red plus 10% near-white yields the red |
| ColorCache.ColorForAlbum | spotify_color.py:338-381 | empty URL gives white with no fetch; a hit returns the stored value with no fetch; a failed fetch gives white and stores nothing; otherwise one fetch, a non-black colour, stored under the URL |
| ColorCache.HexColor | spotify_color.py:432 | seven characters: `#` and six hex digits |
| ColorCache.ParseHexColor | spotify_color.py:432 | accepts exactly the strings of the `#rrggbb` shape |
| ColorCache.HexColorRoundTrip | spotify_color.py:432 | reading a formatted colour gives the colour back |
| ColorCache.ParseHexColorRoundTrip | spotify_color.py:432 | every well-formed `#rrggbb` string is the formatting of what it reads as |
| ColorCache.DominantColorHex | spotify_color.py:403-437 | a cached triple is formatted with no fetch; a cached curses colour gives `None`; a failed fetch gives `None` and stores nothing; otherwise one fetch stores and formats the vibrant colour |
| ColorCache.TrackColorReply | ResoniteSpotipy.py:605-616 | no album images gives the no-art marker; no colour gives the no-colour marker; otherwise the `TRACK_COLOR:` prefix |
| ColorCache.TrackColorReplyReadsBack | ResoniteSpotipy.py:610-612 | the colour after the `TRACK_COLOR:` prefix reads back as the colour that was sent |
| ColorCache.LookupsOnlyExtend | spotify_color.py:359-429 | neither lookup overwrites an entry; at most the requested URL is added |
| ColorCache.InsertExtends | spotify_color.py:379 | storing under a new URL, or storing nothing, only extends the cache |
| ColorCache.ColorForAlbumCached | spotify_color.py:359-379 | asking twice for an album that can be fetched makes at most one fetch and gives the same answer |
| ColorCache.DominantColorHexCached | spotify_color.py:414-429 | the same for the hex lookup |
| ColorCache.FailedFetchRetried | spotify_color.py:364-420 | a failed fetch is not remembered: the next call fetches again |
| ColorCache.SharedCacheConfusion | spotify_color.py:414-432 | as written, a hex lookup makes the border lookup return an RGB triple, and a border lookup makes the hex lookup answer `None` |
| ColorCache.AlbumColor | spotify_color.py:338-381 | over its own cache, the border colour is never black, the RGB cache is untouched, a hit needs no fetch, and at most one fetch is made |
| ColorCache.AlbumColorHex | spotify_color.py:403-437 | over its own cache, the hex lookup leaves the palette cache alone, and a hit is formatted with no fetch |
| ColorCache.SplitCachesIndependent | spotify_color.py:53 | with one cache per writer, neither lookup changes the other's answer |
| ColorCache.RedCoverRedBorder | spotify_color.py:370-376 | the red cover above gives a red border |
| TrackColor.AlbumUrl | spotify_color.py:524-546 | a URL is chosen exactly when the track has album images and the chosen image has a non-empty URL; it is the second image's URL when there are two or more, else the first's |
| TrackColor.AlbumUrlPicksMedium | spotify_color.py:531-536 | of three images the medium one is chosen; a lone image is chosen whatever its size |
| TrackColor.UpdateBorderColor | spotify_color.py:439-501 | with a URL and a UI, whatever the shared cache answers becomes `CURRENT_COLOR`; the border is redrawn exactly when that is a curses colour, since `init_pair` raises on an RGB triple in both attempts; a fresh fetch always redraws with a non-black colour; otherwise nothing changes |
| TrackColor.ProcessCurrentTrack | spotify_color.py:503-552 | no track data, no UI or no usable URL leaves everything unchanged; otherwise the border is updated from the chosen URL over the shared cache |
| TrackColor.BorderNeverBlack | spotify_color.py:465-477 | starting from a shared cache without black, neither the cache nor `CURRENT_COLOR` ever holds black |
| TrackColor.SameTrackTwice | spotify_color.py:503-552 | over the shared cache, the same track twice keeps the colour and the cache; the second pass redraws exactly when the colour is a curses colour, which it always is when the first pass did the lookup itself |
| TrackColor.BorderStallsAfterHexLookup | spotify_color.py:465-494 | as written, after a hex lookup stored an RGB triple under the URL, processing the track sets `CURRENT_COLOR` to that triple and never redraws, on any number of passes |
| TrackColor.UpdateBorderSplit | spotify_color.py:439-501 | the corrected update over split caches: with a URL and a UI the album colour becomes the current colour and the border is redrawn once; otherwise nothing changes |
| TrackColor.ProcessTrackSplit | spotify_color.py:503-552 | the corrected `process_current_track`: unchanged without data, UI or URL; otherwise the split update from the chosen URL |
| TrackColor.SplitBorderNeverBlack | spotify_color.py:465-477 | over split caches the border is never set to black |
| TrackColor.SplitSameTrackTwice | spotify_color.py:503-552 | over split caches the same track twice keeps the colour and the caches, and always redraws again |
| TrackColor.SplitBorderAfterHexLookup | spotify_color.py:53 | over split caches, a hex lookup beforehand changes neither the border colour nor the redraw |
| LogWindow.ClassifyIsFirstMatch | resonite_ui.py:603-624 | the chosen category's rule matches, and no earlier rule in the chain does |
| LogWindow.ErrorFirst | resonite_ui.py:603-604 | an entry is an error entry exactly when the message contains `[ERROR]` |
| LogWindow.AddLog | resonite_ui.py:597-642 | the new tagged entry is last; at most 100 entries are kept, dropping the oldest; the new entry is marked for its slide-in at frame 0, as it stands before the immediate render that `add_log` runs (that render's step is part of the slide-in curve, left out below) |
| LogWindow.TaggedMarkers | resonite_ui.py:706-752 | an entry of category `t` whose body holds no category marker contains `t`'s opening marker and no other category's |
| LogWindow.StripFromTagged | resonite_ui.py:706-752 | the renderer's chain stops at the entry's own category and removes exactly its markers |
| LogWindow.LineMarkerFree | resonite_ui.py:626 | a timestamp and a message free of category markers make an entry body free of them: no marker straddles the brackets |
| LogWindow.TagStripRoundTrip | resonite_ui.py:597-752 | for a timestamp and message that hold no category marker (other `<` text, such as an exception message, is allowed), rendering a tagged entry recovers `add_log`'s category and the exact `[ts] message` line |
| UiFormat.MsToHms | resonite_ui.py:29-36 | a missing or non-positive duration shows `00:00`; the clock ends in `:SS`; under 100 minutes it is five characters |
| UiFormat.HmsReadsBack | resonite_ui.py:29-36 | the clock splits at its one colon into digit fields; the seconds field is two digits below 60; minutes * 60 + seconds is the whole seconds |
| UiFormat.SliceTo | resonite_ui.py:42 | Python's `s[:k]`: a negative bound counts from the end, and bounds are clamped |
| UiFormat.Truncate | resonite_ui.py:38-42 | a text within the budget is kept; a longer one, with a budget of at least 3, is its first max-3 characters plus `...`, exactly `max` long |
| UiFormat.TruncateFitsAndIsIdempotent | resonite_ui.py:38-42 | with a budget of at least 3, the result fits and truncating again changes nothing |
| UiFormat.TruncateOverflowsNarrowBudget | resonite_ui.py:38-42 | as written, below 3 columns a truncated text is longer than the budget |
| UiFormat.TruncateTwoColumns | resonite_ui.py:42 | `truncate("abcdef", 2)` is `abcde...` |
| UiFormat.TruncateBounded | resonite_ui.py:38-42 | the corrected helper never exceeds a non-negative budget and agrees with `truncate` from 3 columns on |
| UiFormat.TruncateBoundedFits | resonite_ui.py:38-42 | the corrected helper fills the budget exactly when it cuts, and below 3 columns keeps a prefix |
| Layout.StatusBox | resonite_ui.py:494-499 | the status bar takes the top three rows and the full width |
| Layout.LogBox | resonite_ui.py:582-587 | the log panel starts right below the status bar and ends five rows above the bottom edge |
| Layout.NowPlayingBox | resonite_ui.py:797-803 | the now-playing panel takes three rows ending one row above the last |
| Layout.LogCapacity | resonite_ui.py:672 | `available_lines` is nine fewer than the terminal's rows, and from nine rows on it is the number of rows strictly between the log panel's borders |
| Layout.RowsBetween | resonite_ui.py:672 | the rows strictly between two borders, and how many there are |
| Layout.PanelsStack | resonite_ui.py:582-587 | from 8 rows on, the panels are non-empty, follow each other without a gap or overlap, and cover every row but the last |
| Layout.LogBoxInverted | resonite_ui.py:585-586 | below 8 rows, the log panel's bottom lies above its top and its capacity is negative |
| Layout.CheckResize | resonite_ui.py:906-915 | reports a change exactly when a size was read and differs, and then remembers it; a failed read changes nothing |
| Layout.ResizeSettles | resonite_ui.py:906-915 | a second check at the same size reports no change |
| NowPlaying.ProgressPercent | resonite_ui.py:319-320 | the percentage is 0 unless progress and length are positive, never negative, at most 100 while progress <= length, and times length gives 100 * progress |
| NowPlaying.ProgressBlocks | resonite_ui.py:418-439 | for the non-negative widths the panel computes blocks for: between 0 and 50 blocks; filled plus empty is the width; filled is the floor of the played share of the width, which is what `int()` gives on a non-negative number |
| NowPlaying.BarWithinBounds | resonite_ui.py:418-439 | whenever the full bar is drawn and the track has not overrun, the width is 5 to 50 and no count is negative or over the width |
| NowPlaying.FilledGrowsWithProgress | resonite_ui.py:438 | more of the track played never fills fewer blocks |
| NowPlaying.StartAnimation | resonite_ui.py:189-193 | starts a fresh animation at frame 0 and leaves the names alone |
| NowPlaying.SeeTrack | resonite_ui.py:310-322 | a new track name keeps the old names as the previous ones and restarts the animation; the same name leaves the animation alone; the blank-display timer restarts |
| NowPlaying.SeeNoTrack | resonite_ui.py:323-328 | the names become `-`, the timer restarts only when a track was lost, and the animation and previous name are untouched |
| NowPlaying.LabelPrevious | resonite_ui.py:364-375 | while an animation with a previous name runs, only the previous name changes: `-` becomes empty within 10 seconds of the timer and the waiting text after; another name without a status icon gets the status line's icons; a name already empty or iconed is left alone, and afterwards it always is |
| NowPlaying.Render | resonite_ui.py:293-414 | the track name shown is the status's, `-` without an item, or unchanged without a status; a status with a track restarts the timer |
| NowPlaying.AnimateStep | resonite_ui.py:197-291 | a stopped animation is unchanged; a running one with a previous name advances one frame and stops at 20; without one it is marked complete |
| NowPlaying.TrackAfterBlankShownAtOnce | resonite_ui.py:310-371 | a track that follows `-` does not slide in: the previous name becomes empty in the same render and the animation completes at frame 0 |
| NowPlaying.TrackChangeSlides | resonite_ui.py:310-375 | a change from one track to another leaves the animation running at frame 1 with a labelled, non-empty previous name |
| NowPlaying.SteadyRenderIsStep | resonite_ui.py:293-414 | once the previous name is labelled, a render of the same track is one `animate_text` step |
| NowPlaying.AnimationRunsItsFrames | resonite_ui.py:217-280 | from frame 0 with a non-empty previous name, step `k` shows frame `k`, and the animation is over exactly after 20 steps |
| NowPlaying.FinishedStaysFinished | resonite_ui.py:197-208 | further steps leave a finished animation unchanged |
| Commands.Tokenise | ResoniteSpotipy.py:554-566 | data exists exactly when the message, less one trailing space, has a space; then command + space + data is that text; otherwise the raw message is the command |
| Commands.TokeniseStripped | ResoniteSpotipy.py:554-566 | the corrected tokeniser's command never holds a space, and it agrees with the original whenever there is data |
| Commands.TrailingSpaceIgnored | ResoniteSpotipy.py:554-560 | with the fix, a one-word command with a trailing space is the same command as without it |
| Commands.Route | ResoniteSpotipy.py:570-626 | a command outside the nineteen listed names gets the "Unknown command" catch-all; `current_song` alone is answered silently; every other listed name reaches the handler of its own name (`resume` that of pause) |
| Commands.RouteIntended | ResoniteSpotipy.py:570-626 | with `current_track` in the first group, no command is answered silently, and exactly the unlisted ones are unknown |
| Commands.RoutesAgreeElsewhere | ResoniteSpotipy.py:570-571 | the fix changes the routing of `current_song` and `current_track` only |
| Commands.CurrentTrackUnreachable | ResoniteSpotipy.py:570-571 | as written, `current_song` gets an empty answer and no message reaches the `current_track` case |
| Commands.EveryHandlerReachable | ResoniteSpotipy.py:570-626 | with the intended group, every handler is reached by its own command |
| Commands.TrailingSpaceUnknown | ResoniteSpotipy.py:554-560 | as written, any one-word command sent with a trailing space is unknown; with the fix it routes as the bare word |
| Commands.SpacedWordUnknown | ResoniteSpotipy.py:623-626 | no command name ends in a space |
| Commands.SpacedNextUnknown | ResoniteSpotipy.py:554-560 | `next ` is unknown as written and is `next` with the fix |
| Commands.PreviousAction | ResoniteSpotipy.py:311-316 | past 4000 ms seek to the start, otherwise go to the previous track; a failed read does nothing |
| Commands.PreviousAnswer | ResoniteSpotipy.py:311-325 | success text exactly when the read and the action both succeed; otherwise the error text |
| Commands.ToggleAction | ResoniteSpotipy.py:371-380 | pause exactly when the track is known to be playing; otherwise start, whichever of the two commands was sent |
| Commands.ToggleAnswer | ResoniteSpotipy.py:371-389 | reports the playing state after the action, or the error text when the action failed |
| Commands.ToggleFlips | ResoniteSpotipy.py:371-380 | the toggle flips the playing state both ways |
| Commands.ShuffleStep | ResoniteSpotipy.py:392-404 | a failed read gives the error and no action; otherwise shuffle is set to the negation, and reported when the action succeeds |
| Commands.ShuffleReportsWhatItSets | ResoniteSpotipy.py:392-404 | read, toggle, read: a step reports exactly the state it set, the negation of the one read; a failed step changes nothing; two successful steps restore the first state and the second reports it |
| Commands.IndexOf | ResoniteSpotipy.py:410 | `list.index`: the first position holding the value, `None` exactly when it is absent |
| Commands.NextRepeat | ResoniteSpotipy.py:408-410 | the next mode is a different known mode; an unknown mode fails |
| Commands.RepeatCycle | ResoniteSpotipy.py:408-410 | off, track, context: three steps return to the start |
| Commands.RepeatStep | ResoniteSpotipy.py:406-420 | a failed read or an unknown mode gives the error and no action; otherwise the next mode is set, and reported capitalised when the action succeeds |
| Commands.RepeatReports | ResoniteSpotipy.py:410-416 | the reported names are `Track`, `Context` and `Off` |
| Credentials.CommentsTerminated | ResoniteSpotipy.py:106-114 | each comment line of the template is one line |
| Credentials.Field | ResoniteSpotipy.py:156 | a line with fewer than three space-separated words fails; a field never holds a space, `<` or `>` |
| Credentials.BracketedField | ResoniteSpotipy.py:156 | a value written as `<v>` in a line `w1 w2 <v>` is read as `v` |
| Credentials.FieldOfLine | ResoniteSpotipy.py:156 | a line `w1 w2 v`, with or without a newline, gives back `v` |
| Credentials.ParsePort | ResoniteSpotipy.py:158 | the port text parses exactly when it is non-empty decimal digits, to its value |
| Credentials.RawSettings | ResoniteSpotipy.py:149-156 | the settings are read exactly when lines 1, 2, 5 and 9 exist and each yields a field |
| Credentials.ReadSettings | ResoniteSpotipy.py:146-161 | malformed lines, then a non-numeric port, then a port inside the redirect URI are refused, each exactly in its case; otherwise the settings and port number |
| Credentials.FileWellFormed | ResoniteSpotipy.py:152-153 | a file in the template's layout is what `readlines()` returns for its text |
| Credentials.FileFields | ResoniteSpotipy.py:149-156 | the four settings lines of such a file give back the four values |
| Credentials.FileRoundTrip | ResoniteSpotipy.py:146-161 | writing plain settings and reading them back gives them, unless the port text occurs in the redirect URI |
| Credentials.TemplateRoundTrip | ResoniteSpotipy.py:106-115 | the template filled with plain settings reads back the same way |
| Credentials.DefaultPortNumber | ResoniteSpotipy.py:115 | the default port text is the number 6969 |
| Credentials.DefaultPortNotInRedirect | ResoniteSpotipy.py:111-115 | the default port does not occur in the default redirect URI |
| Credentials.ClientIdInFile | ResoniteSpotipy.py:107 | a file in the template's layout contains its client id |
| Credentials.TemplateIsRefused | ResoniteSpotipy.py:102-143 | the written template parses as the placeholder settings on port 6969, and the placeholder check refuses it |
| Credentials.CallbackPortRefused | ResoniteSpotipy.py:160-161 | choosing the callback's own port 8000 is refused |
| TrackCache.GetCanvas | ResoniteSpotipy.py:28-65 | a checked id answers its stored value with no call; otherwise one call, whose answer, found or not, is stored and touches only that id's canvas fields |
| TrackCache.GetArtistImage | ResoniteSpotipy.py:67-97 | the same memo under the artist flag, keeping the canvas fields |
| TrackCache.NeverAskedTwice | ResoniteSpotipy.py:31-32 | a second lookup of an id makes no call and repeats the first answer |
| TrackCache.FailureRemembered | ResoniteSpotipy.py:59-65 | a failed canvas lookup is remembered: later lookups answer `None` without a call |
| TrackCache.LookupsIndependent | ResoniteSpotipy.py:28-97 | artist and canvas lookups never change each other's answers or calls, even under the same id |
| TrackCache.CanvasRun | ResoniteSpotipy.py:28-65 | after a series of lookups every id is checked with its answer stored, and earlier checked entries keep their values |
| TrackCache.CanvasRunAsksOnce | ResoniteSpotipy.py:28-65 | over any series, the service is asked about each id at most once, and only about ids not checked to begin with |
| TrackCache.CanvasReply | ResoniteSpotipy.py:590-595 | the reply is the no-canvas marker or starts with `CANVAS_URL:` |
| TrackCache.CanvasReplyReadsBack | ResoniteSpotipy.py:590-595 | the reply carries a URL exactly when a non-empty one was found, and that URL follows the prefix |
| TrackCache.ArtistReply | ResoniteSpotipy.py:597-603 | the reply is the no-image marker or starts with `ARTIST_IMG_URL:` |
| TrackCache.ArtistReplyReadsBack | ResoniteSpotipy.py:597-603 | the reply carries a URL exactly when a non-empty one was found, and that URL follows the prefix |

## Left out

- HTTP requests (`fetch_album_art`, the canvas service, the Spotify Web API), image decoding, resizing and k-means are parameters. The model proves nothing about what they return.
- `train_kmeans` and `update_kmeans_model` are left out. They are model-training code on the side of the pipeline, and no colour decision depends on them.
- Threads, the colour lock, asyncio and the websocket transport are left out. `update_border_color`'s background thread is modelled as running to completion at once.
- Curses drawing is left out: `addstr`, centring and padding, the slide positions and colour pairs. Of `init_pair`, only whether it accepts the colour is modelled. The log slide-in curve (`** 0.15`, step 1.8) is left out too: it is a floating-point screen effect that no other state depends on.
- The clock is a parameter: `time.time()` is a `real` passed to each render, and the time that passes within one render is taken as zero.
- Floating point: all colour and progress arithmetic is exact over `real`. IEEE rounding near the thresholds (0.15, 0.1, 0.9) is not modelled.
- UiFormat.MsToHms: takes the duration as an integer number of milliseconds. `int(ms / 1000)` divides in floating point and is modelled as integer division. The two agree for every non-negative integer below 2^53, which covers any track length. Above that, the float quotient can round up to the next whole second.
- Credentials.ParsePort: accepts only plain decimal digits. Python's `int()` also takes a sign, surrounding whitespace and underscores, which the model refuses as a bad port.
- The placeholder check and the template write of `check_ids_file` are modelled on the file's text. File existence, the write itself, `input()` and `sys.exit` are left out.
- `APIClient.get_playback_states` is left out. The payload is modelled as the `StatesWith(field, value)` answer, naming the one field that is overridden.
- The `play` sub-branches, `list_stuff`, `display_info` and the payload-building branches of `display_current_info` are left out. They format Spotify responses that the model does not have; routing to them is modelled.
- The `get_track_color` branch picks `images[0]` from the playing track. That choice and the API read are left out; the reply built from its result is modelled.
- Logging calls (`add_log`, `debug_log`) made as side effects of the other operations are left out. `add_log` itself is modelled.
- Commands.Capitalize: states only that the length is kept. Its effect on the three repeat modes is stated concretely by `Commands.RepeatReports`.
- Histogram.DominantColors: bounds the number of swatches and gives the fallback. Shares and order are stated by `Histogram.SharesSumTo100` and `Histogram.SharesDescending`.

## Findings

| source | as written | input that shows it | evidently intended | confidence | as-written member | corrected member |
|---|---|---|---|---|---|---|
| spotify_color.py:53 | `get_color_for_album` stores a curses constant and `get_dominant_color` stores an RGB triple, both in the one `COLOR_CACHE` under the album URL | the same album URL asked for by `get_track_color` and then by the border update, or in the other order | one cache per kind of result, so neither lookup disturbs the other | not executed | ColorCache.SharedCacheConfusion | ColorCache.SplitCachesIndependent |
| resonite_ui.py:38-42 | `text[:max_length-3] + "..."` with `max_length` below 3 gives a text longer than the budget | `truncate("abcdef", 2)` is `"abcde..."`, 8 characters for a budget of 2 | the result never exceeds the budget | not executed | UiFormat.TruncateOverflowsNarrowBudget | UiFormat.TruncateBoundedFits |
| ResoniteSpotipy.py:570-571 | the first routing group lists `current_song`, but `display_current_info` has a case for `current_track` | `current_song` is answered with an empty payload, and `current_track` is answered "Unknown command" | the group lists `current_track` | not executed | Commands.CurrentTrackUnreachable | Commands.EveryHandlerReachable |
| spotify_color.py:465-494 | the border takes whatever the shared cache holds; an RGB triple stored by `get_dominant_color` reaches `init_pair`, which raises, and so does the fallback with pair 17 | a one-image album whose colour `get_track_color` asked for before the track was processed: the border keeps its old colour, on every later pass too | the border is set to the nearest curses colour and redrawn | not executed | TrackColor.BorderStallsAfterHexLookup | TrackColor.SplitBorderAfterHexLookup |
| ResoniteSpotipy.py:554-560 | a message of one word keeps its raw text, trailing space included, as the command | `"next "` is answered "Unknown command" | the command is the first word, whether or not a trailing space was sent | not executed | Commands.TrailingSpaceUnknown | Commands.TrailingSpaceIgnored |
