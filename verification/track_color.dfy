/** `process_current_track` and `update_border_color`: choosing the album
    image of the playing track and recolouring the border from it. The
    background thread is modelled as running to completion at once. */
module TrackColor {
  import opened Optional
  import opened Palette
  import opened ColorCache

  /** The parts of Spotify's playback payload the colour code reads. An
      absent, `None` or empty value is `None`. */
  datatype Image = Image(url: Option<string>)
  datatype Album = Album(images: Option<seq<Image>>)
  datatype Item = Item(album: Option<Album>)
  datatype TrackData = TrackData(item: Option<Item>)

  /** The medium-sized image (index 1) when there are at least two, else
      the only one; `None` when there is no usable URL. */
  function AlbumUrl(t: TrackData): (u: Option<string>)
    ensures u.Some? ==> u.value != ""
    ensures u.Some? <==>
      t.item.Some? && t.item.value.album.Some? && t.item.value.album.value.images.Some?
      && var imgs := t.item.value.album.value.images.value;
         |imgs| > 0 && imgs[if |imgs| > 1 then 1 else 0].url.Some?
         && imgs[if |imgs| > 1 then 1 else 0].url.value != ""
    ensures u.Some? ==>
      var imgs := t.item.value.album.value.images.value;
      u == imgs[if |imgs| > 1 then 1 else 0].url
  {
    match t.item
    case None => None
    case Some(item) =>
      match item.album
      case None => None
      case Some(album) =>
        match album.images
        case None => None
        case Some(imgs) =>
          if |imgs| == 0 then None
          else
            var chosen := imgs[if |imgs| > 1 then 1 else 0];
            if chosen.url.Some? && chosen.url.value != "" then chosen.url else None
  }

  /** Of the three sizes Spotify lists, the medium one is chosen; a lone
      image is chosen whatever its size. */
  lemma AlbumUrlPicksMedium(large: string, medium: string, small: string)
    requires medium != ""
    ensures AlbumUrl(TrackData(Some(Item(Some(Album(Some([Image(Some(large)), Image(Some(medium)), Image(Some(small))]))))))) == Some(medium)
    ensures large != "" ==> AlbumUrl(TrackData(Some(Item(Some(Album(Some([Image(Some(large))]))))))) == Some(large)
  {
  }

  /** The border colour state as written: `CURRENT_COLOR`, the one
      `COLOR_CACHE`, and how many times the border colour pair was set and
      the UI redrawn. */
  datatype BorderState = BorderState(current: Option<CacheValue>, cache: Cache, redraws: nat)

  /** `update_border_color`. With a URL and a UI, whatever the shared cache
      answers becomes `CURRENT_COLOR`. `curses.init_pair` accepts only a
      curses colour: for an RGB triple it raises, the fallback with pair 17
      raises too, and the UI is not redrawn. */
  function UpdateBorderColor(svc: Services, st: BorderState, url: string, hasUi: bool): (st': BorderState)
    ensures url == "" || !hasUi ==> st' == st
    ensures url != "" && hasUi ==>
      var o := ColorForAlbum(svc, st.cache, url);
      st'.current == Some(o.value) && st'.cache == o.cache
      && (st'.redraws == st.redraws + 1 <==> o.value.PaletteColor?)
      && (o.value.RgbColor? <==> st'.redraws == st.redraws)
    ensures url != "" && hasUi && url !in st.cache && Fetched(svc.fetch(url)) ==>
      st'.current.value.PaletteColor? && st'.current.value.color != Black
      && st'.redraws == st.redraws + 1
  {
    if url == "" || !hasUi then st
    else
      var o := ColorForAlbum(svc, st.cache, url);
      var drawn := if o.value.PaletteColor? then 1 else 0;
      BorderState(Some(o.value), o.cache, st.redraws + drawn)
  }

  /** `process_current_track`. */
  function ProcessCurrentTrack(svc: Services, st: BorderState, track: Option<TrackData>, hasUi: bool): (st': BorderState)
    ensures track.None? || !hasUi || AlbumUrl(track.value).None? ==> st' == st
    ensures track.Some? && hasUi && AlbumUrl(track.value).Some? ==>
      st' == UpdateBorderColor(svc, st, AlbumUrl(track.value).value, true)
  {
    if track.None? || !hasUi then st
    else
      match AlbumUrl(track.value)
      case None => st
      case Some(u) => UpdateBorderColor(svc, st, u, true)
  }

  /** The shared cache holds no black curses colour. */
  predicate NoBlackEntry(cache: Cache) {
    forall k :: k in cache ==> cache[k] != PaletteColor(Black)
  }

  /** The border is never set to black, starting from a cache without black. */
  lemma BorderNeverBlack(svc: Services, st: BorderState, track: Option<TrackData>, hasUi: bool)
    requires NoBlackEntry(st.cache) && st.current != Some(PaletteColor(Black))
    ensures NoBlackEntry(ProcessCurrentTrack(svc, st, track, hasUi).cache)
    ensures ProcessCurrentTrack(svc, st, track, hasUi).current != Some(PaletteColor(Black))
  {
  }

  /** The same track twice: the second pass fetches nothing new and keeps
      the colour; it redraws again exactly when that colour is a curses
      colour, which it is whenever the first pass did the lookup itself. */
  lemma SameTrackTwice(svc: Services, st: BorderState, t: TrackData)
    requires AlbumUrl(t).Some?
    requires AlbumUrl(t).value in st.cache || Fetched(svc.fetch(AlbumUrl(t).value))
    ensures var once := ProcessCurrentTrack(svc, st, Some(t), true);
      var twice := ProcessCurrentTrack(svc, once, Some(t), true);
      twice.current == once.current && twice.cache == once.cache
      && (twice.redraws == once.redraws + 1 <==> once.current.value.PaletteColor?)
    ensures AlbumUrl(t).value !in st.cache ==>
      var once := ProcessCurrentTrack(svc, st, Some(t), true);
      ProcessCurrentTrack(svc, once, Some(t), true).redraws == once.redraws + 1
  {
  }

  /** As written, a track-colour request for an album stores an RGB triple
      under its URL; when the border then asks for the same URL (an album
      with a single image), `CURRENT_COLOR` becomes that triple, both
      `init_pair` calls raise, and the border is not redrawn, however often
      the track is processed. */
  lemma BorderStallsAfterHexLookup(svc: Services, st: BorderState, t: TrackData)
    requires AlbumUrl(t).Some? && AlbumUrl(t).value !in st.cache
    requires Fetched(svc.fetch(AlbumUrl(t).value))
    ensures var url := AlbumUrl(t).value;
      var before := st.(cache := DominantColorHex(svc, st.cache, url).cache);
      var after := ProcessCurrentTrack(svc, before, Some(t), true);
      after.current.value.RgbColor? && after.redraws == st.redraws
      && ProcessCurrentTrack(svc, after, Some(t), true).redraws == st.redraws
  {
    var url := AlbumUrl(t).value;
    var c := DominantColorHex(svc, st.cache, url).cache;
    assert url in c && c[url].RgbColor?;
  }

  /** The corrected border state: the border's colour cache is its own, so
      `CURRENT_COLOR` is always a curses colour. */
  datatype SplitBorderState = SplitBorderState(current: Option<CursesColor>, caches: Caches, redraws: nat)

  /** `update_border_color` over the split caches: with a URL and a UI the
      album colour becomes the current colour and the border is redrawn,
      even when the colour did not change; otherwise nothing happens. */
  function UpdateBorderSplit(svc: Services, st: SplitBorderState, url: string, hasUi: bool): (st': SplitBorderState)
    ensures url == "" || !hasUi ==> st' == st
    ensures url != "" && hasUi ==>
      st'.current == Some(AlbumColor(svc, st.caches, url).value)
      && st'.caches == AlbumColor(svc, st.caches, url).caches
      && st'.redraws == st.redraws + 1
  {
    if url == "" || !hasUi then st
    else
      var o := AlbumColor(svc, st.caches, url);
      SplitBorderState(Some(o.value), o.caches, st.redraws + 1)
  }

  /** `process_current_track` over the split caches. */
  function ProcessTrackSplit(svc: Services, st: SplitBorderState, track: Option<TrackData>, hasUi: bool): (st': SplitBorderState)
    ensures track.None? || !hasUi || AlbumUrl(track.value).None? ==> st' == st
    ensures track.Some? && hasUi && AlbumUrl(track.value).Some? ==>
      st' == UpdateBorderSplit(svc, st, AlbumUrl(track.value).value, true)
  {
    if track.None? || !hasUi then st
    else
      match AlbumUrl(track.value)
      case None => st
      case Some(u) => UpdateBorderSplit(svc, st, u, true)
  }

  /** Over split caches the border is never set to black either. */
  lemma SplitBorderNeverBlack(svc: Services, st: SplitBorderState, track: Option<TrackData>, hasUi: bool)
    requires NoBlack(st.caches) && st.current != Some(Black)
    ensures NoBlack(ProcessTrackSplit(svc, st, track, hasUi).caches)
    ensures ProcessTrackSplit(svc, st, track, hasUi).current != Some(Black)
  {
  }

  /** Over split caches the same track twice keeps the colour and the
      caches, and always redraws again. */
  lemma SplitSameTrackTwice(svc: Services, st: SplitBorderState, t: TrackData)
    requires AlbumUrl(t).Some?
    requires AlbumUrl(t).value in st.caches.palette || Fetched(svc.fetch(AlbumUrl(t).value))
    ensures var once := ProcessTrackSplit(svc, st, Some(t), true);
      var twice := ProcessTrackSplit(svc, once, Some(t), true);
      twice.current == once.current && twice.caches == once.caches
      && twice.redraws == once.redraws + 1
  {
  }

  /** The corrected half of `BorderStallsAfterHexLookup`: a track-colour
      request beforehand changes neither the border colour nor the redraw. */
  lemma SplitBorderAfterHexLookup(svc: Services, st: SplitBorderState, t: TrackData)
    requires AlbumUrl(t).Some?
    ensures var url := AlbumUrl(t).value;
      var before := st.(caches := AlbumColorHex(svc, st.caches, url).caches);
      var after := ProcessTrackSplit(svc, before, Some(t), true);
      after.current == ProcessTrackSplit(svc, st, Some(t), true).current
      && after.redraws == st.redraws + 1
  {
    var url := AlbumUrl(t).value;
    SplitCachesIndependent(svc, st.caches, url);
  }
}
