/** `TRACK_CACHE`: the memo behind `get_spotify_canvas` and
    `get_artist_image`, keyed by track or artist id. Each id's entry holds
    a "checked" flag per lookup, and failures are stored as well, so every
    id is asked about at most once. The canvas service and the Spotify
    artist call are parameters; the cache is passed in and returned. */
module TrackCache {
  import opened Optional

  /** The record `get_spotify_canvas` keeps from the first canvas found. */
  datatype CanvasInfo = CanvasInfo(canvasUrl: Option<string>, artistImgUrl: Option<string>)

  /** The outside world: the canvas service's first canvas for a track and
      the first image URL of an artist. `None` stands for every way the
      call can come back empty: a status other than 200, an empty list, no
      images, or an exception. */
  datatype Services = Services(
    canvas: string -> Option<CanvasInfo>,
    artistImage: string -> Option<string>)

  /** One id's entry. For each lookup, `None` means its flag was never set
      and `Some(v)` that it is set with the stored value `v`. */
  datatype Entry = Entry(canvas: Option<Option<CanvasInfo>>, artistImage: Option<Option<string>>)

  type Cache = map<string, Entry>

  /** A lookup's answer, the cache afterwards, and how many calls it made. */
  datatype Lookup<T> = Lookup(value: Option<T>, cache: Cache, fetches: nat)

  predicate CanvasChecked(cache: Cache, id: string) {
    id in cache && cache[id].canvas.Some?
  }

  predicate ArtistChecked(cache: Cache, id: string) {
    id in cache && cache[id].artistImage.Some?
  }

  /** The entry of `id`, an empty one (`{}`) when there is none. */
  function EntryOf(cache: Cache, id: string): Entry {
    if id in cache then cache[id] else Entry(None, None)
  }

  /** `cache` and `after` agree on every id other than `id`, and `after`
      has an entry for `id`. */
  predicate OnlyTouches(cache: Cache, after: Cache, id: string) {
    && id in after
    && (forall k :: k in cache ==> k in after)
    && (forall k :: k in after && k != id ==> k in cache && after[k] == cache[k])
  }

  /** `get_spotify_canvas`: a checked id answers its stored value without a
      call; otherwise the service is asked once and its answer, found or
      not, is stored under the checked flag. */
  function GetCanvas(svc: Services, cache: Cache, id: string): (r: Lookup<CanvasInfo>)
    ensures CanvasChecked(cache, id) ==> r == Lookup(cache[id].canvas.value, cache, 0)
    ensures !CanvasChecked(cache, id) ==>
      r.fetches == 1 && r.value == svc.canvas(id) && OnlyTouches(cache, r.cache, id)
      && r.cache[id].canvas == Some(svc.canvas(id))
      && r.cache[id].artistImage == EntryOf(cache, id).artistImage
    ensures CanvasChecked(r.cache, id) && r.cache[id].canvas == Some(r.value)
  {
    if CanvasChecked(cache, id) then Lookup(cache[id].canvas.value, cache, 0)
    else
      var v := svc.canvas(id);
      Lookup(v, cache[id := EntryOf(cache, id).(canvas := Some(v))], 1)
  }

  /** `get_artist_image`, the same memo under the artist flag. */
  function GetArtistImage(svc: Services, cache: Cache, id: string): (r: Lookup<string>)
    ensures ArtistChecked(cache, id) ==> r == Lookup(cache[id].artistImage.value, cache, 0)
    ensures !ArtistChecked(cache, id) ==>
      r.fetches == 1 && r.value == svc.artistImage(id) && OnlyTouches(cache, r.cache, id)
      && r.cache[id].artistImage == Some(svc.artistImage(id))
      && r.cache[id].canvas == EntryOf(cache, id).canvas
    ensures ArtistChecked(r.cache, id) && r.cache[id].artistImage == Some(r.value)
  {
    if ArtistChecked(cache, id) then Lookup(cache[id].artistImage.value, cache, 0)
    else
      var v := svc.artistImage(id);
      Lookup(v, cache[id := EntryOf(cache, id).(artistImage := Some(v))], 1)
  }

  /** A second lookup of the same id makes no call and gives the first
      answer, whether the first found something or not. */
  lemma NeverAskedTwice(svc: Services, cache: Cache, id: string)
    ensures var first := GetCanvas(svc, cache, id);
      GetCanvas(svc, first.cache, id) == Lookup(first.value, first.cache, 0)
    ensures var first := GetArtistImage(svc, cache, id);
      GetArtistImage(svc, first.cache, id) == Lookup(first.value, first.cache, 0)
  {
  }

  /** A failed canvas lookup is remembered: afterwards the id answers
      `None` without a call, even if the service would now answer. */
  lemma FailureRemembered(svc: Services, later: Services, cache: Cache, id: string)
    requires !CanvasChecked(cache, id) && svc.canvas(id).None?
    ensures GetCanvas(svc, cache, id).value.None?
    ensures GetCanvas(later, GetCanvas(svc, cache, id).cache, id).value.None?
    ensures GetCanvas(later, GetCanvas(svc, cache, id).cache, id).fetches == 0
  {
  }

  /** Track and artist ids share the dictionary, but the two lookups keep
      separate flags: an artist lookup, even under the same id, changes
      no later canvas lookup, and the other way round. */
  lemma LookupsIndependent(svc: Services, cache: Cache, trackId: string, artistId: string)
    ensures GetCanvas(svc, GetArtistImage(svc, cache, artistId).cache, trackId).value
      == GetCanvas(svc, cache, trackId).value
    ensures GetCanvas(svc, GetArtistImage(svc, cache, artistId).cache, trackId).fetches
      == GetCanvas(svc, cache, trackId).fetches
    ensures GetArtistImage(svc, GetCanvas(svc, cache, trackId).cache, artistId).value
      == GetArtistImage(svc, cache, artistId).value
    ensures GetArtistImage(svc, GetCanvas(svc, cache, trackId).cache, artistId).fetches
      == GetArtistImage(svc, cache, artistId).fetches
  {
  }

  /** Canvas lookups of `ids` in turn: the answers, the cache afterwards,
      and the ids the service was asked about, in order. */
  datatype Run = Run(values: seq<Option<CanvasInfo>>, cache: Cache, asked: seq<string>)

  /** After a series of lookups every id of the series is checked, each
      answer is the value that stays stored for its id, and entries
      checked before keep their values. */
  function CanvasRun(svc: Services, cache: Cache, ids: seq<string>): (r: Run)
    ensures |r.values| == |ids|
    ensures forall k :: CanvasChecked(cache, k) ==> CanvasChecked(r.cache, k) && r.cache[k].canvas == cache[k].canvas
    ensures forall i :: 0 <= i < |ids| ==> CanvasChecked(r.cache, ids[i]) && r.cache[ids[i]].canvas == Some(r.values[i])
    decreases |ids|
  {
    if |ids| == 0 then Run([], cache, [])
    else
      var first := GetCanvas(svc, cache, ids[0]);
      var rest := CanvasRun(svc, first.cache, ids[1..]);
      Run([first.value] + rest.values, rest.cache, (if first.fetches == 1 then [ids[0]] else []) + rest.asked)
  }

  /** `asked` names distinct ids of `ids`, none of them checked in `cache`. */
  predicate AskedOnce(cache: Cache, ids: seq<string>, asked: seq<string>) {
    && (forall i :: 0 <= i < |asked| ==> asked[i] in ids && !CanvasChecked(cache, asked[i]))
    && (forall i, j :: 0 <= i < j < |asked| ==> asked[i] != asked[j])
  }

  /** Over any series of lookups the service is asked about each id at
      most once, and only about ids of the series that were not checked to
      begin with. */
  lemma {:induction false} CanvasRunAsksOnce(svc: Services, cache: Cache, ids: seq<string>)
    ensures AskedOnce(cache, ids, CanvasRun(svc, cache, ids).asked)
    decreases |ids|
  {
    if |ids| > 0 {
      var first := GetCanvas(svc, cache, ids[0]);
      var rest := CanvasRun(svc, first.cache, ids[1..]);
      CanvasRunAsksOnce(svc, first.cache, ids[1..]);
      assert AskedOnce(first.cache, ids[1..], rest.asked);
      var r := CanvasRun(svc, cache, ids);
      assert CanvasChecked(first.cache, ids[0]);
      forall i | 0 <= i < |rest.asked|
        ensures rest.asked[i] in ids && !CanvasChecked(cache, rest.asked[i]) && rest.asked[i] != ids[0]
      {
        var x := rest.asked[i];
        assert x in ids[1..] && !CanvasChecked(first.cache, x);
        assert x != ids[0];
      }
      if first.fetches == 1 {
        assert r.asked == [ids[0]] + rest.asked;
      } else {
        assert r.asked == rest.asked;
      }
    }
  }

  /** The payload for `get_canvas_video`: the canvas URL when the lookup
      found one with a non-empty URL, otherwise the no-canvas marker. */
  function CanvasReply(v: Option<CanvasInfo>): (p: string)
    ensures p == "NO_CANVAS_AVAILABLE" || (|p| > 11 && p[..11] == "CANVAS_URL:")
  {
    if v.Some? && v.value.canvasUrl.Some? && v.value.canvasUrl.value != "" then
      "CANVAS_URL:" + v.value.canvasUrl.value
    else "NO_CANVAS_AVAILABLE"
  }

  /** The payload for `get_artist_image`. */
  function ArtistReply(v: Option<string>): (p: string)
    ensures p == "NO_ARTIST_IMAGE_AVAILABLE" || (|p| > 15 && p[..15] == "ARTIST_IMG_URL:")
  {
    if v.Some? && v.value != "" then "ARTIST_IMG_URL:" + v.value else "NO_ARTIST_IMAGE_AVAILABLE"
  }

  /** Reading a canvas reply back: it carries a URL exactly when the lookup
      found a non-empty one, and that URL follows the prefix. */
  lemma CanvasReplyReadsBack(v: Option<CanvasInfo>)
    ensures CanvasReply(v) != "NO_CANVAS_AVAILABLE" <==>
      (v.Some? && v.value.canvasUrl.Some? && v.value.canvasUrl.value != "")
    ensures CanvasReply(v) != "NO_CANVAS_AVAILABLE" ==> CanvasReply(v)[11..] == v.value.canvasUrl.value
  {
    if v.Some? && v.value.canvasUrl.Some? && v.value.canvasUrl.value != "" {
      assert CanvasReply(v)[0] == 'C';
    }
  }

  lemma ArtistReplyReadsBack(v: Option<string>)
    ensures ArtistReply(v) != "NO_ARTIST_IMAGE_AVAILABLE" <==> (v.Some? && v.value != "")
    ensures ArtistReply(v) != "NO_ARTIST_IMAGE_AVAILABLE" ==> ArtistReply(v)[15..] == v.value
  {
    if v.Some? && v.value != "" {
      assert ArtistReply(v)[0] == 'A';
    }
  }
}
