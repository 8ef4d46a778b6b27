/** The album-colour cache shared by `get_color_for_album` (which stores a
    curses colour) and `get_dominant_color` (which stores an RGB triple and
    answers a `#rrggbb` string). The HTTP fetch and the clustering of the
    decoded image are parameters; the cache is passed in and returned. */
module ColorCache {
  import opened Optional
  import opened Text
  import opened ColorSpace
  import opened Palette
  import opened Histogram
  import opened Vibrancy

  type Bytes = seq<bv8>

  /** The outside world the colour lookups depend on: `fetch_album_art`
      (`None` for a timeout, an exception or a status other than 200) and
      k-means over the decoded image with the given number of clusters
      (`None` when the bytes are not an image). */
  datatype Services = Services(
    fetch: string -> Option<Bytes>,
    cluster: (Bytes, nat) -> Option<Clustering>)

  /** A `COLOR_CACHE` value: either writer's kind of result. */
  datatype CacheValue = PaletteColor(color: CursesColor) | RgbColor(rgb: Rgb)

  type Cache = map<string, CacheValue>

  /** A lookup's answer, the cache afterwards, and how many fetches it made. */
  datatype Outcome<T> = Outcome(value: T, cache: Cache, fetches: nat)

  /** The bytes of a fetch that succeeded; Python treats `b""` as a failure too. */
  predicate Fetched(data: Option<Bytes>) {
    data.Some? && |data.value| > 0
  }

  /** The pipeline from image bytes to one accent colour: `n` dominant
      colours, then the most vibrant of them. */
  function VibrantColor(svc: Services, data: Bytes, n: nat): Rgb {
    SaturatedColor(DominantColors(svc.cluster(data, n), n))
  }

  /** `get_color_for_album`. */
  function ColorForAlbum(svc: Services, cache: Cache, url: string): (o: Outcome<CacheValue>)
    ensures url == "" ==> o == Outcome(PaletteColor(White), cache, 0)
    ensures url != "" && url in cache ==> o == Outcome(cache[url], cache, 0)
    ensures url != "" && url !in cache && !Fetched(svc.fetch(url)) ==>
      o == Outcome(PaletteColor(White), cache, 1)
    ensures url != "" && url !in cache && Fetched(svc.fetch(url)) ==>
      o.fetches == 1 && o.value.PaletteColor? && o.value.color != Black
      && o.cache == cache[url := o.value]
  {
    if url == "" then Outcome(PaletteColor(White), cache, 0)
    else if url in cache then Outcome(cache[url], cache, 0)
    else
      var data := svc.fetch(url);
      if !Fetched(data) then Outcome(PaletteColor(White), cache, 1)
      else
        var c := PaletteColor(RgbToCurses(VibrantColor(svc, data.value, 8)));
        Outcome(c, cache[url := c], 1)
  }

  /** `"#{:02x}{:02x}{:02x}"` of an RGB colour. */
  function HexColor(c: Rgb): (s: string)
    ensures |s| == 7 && s[0] == '#'
    ensures forall i :: 1 <= i < 7 ==> IsHexChar(s[i])
  {
    "#" + Hex2(c.r) + Hex2(c.g) + Hex2(c.b)
  }

  /** Reading a `#rrggbb` string (lower-case digits) back into a colour. */
  function ParseHexColor(s: string): (c: Option<Rgb>)
    ensures c.Some? <==> |s| == 7 && s[0] == '#' && forall i :: 1 <= i < 7 ==> IsHexChar(s[i])
  {
    if |s| == 7 && s[0] == '#' && forall i :: 1 <= i < 7 ==> IsHexChar(s[i]) then
      Some(Rgb(HexValue(s[1]) * 16 + HexValue(s[2]),
               HexValue(s[3]) * 16 + HexValue(s[4]),
               HexValue(s[5]) * 16 + HexValue(s[6])))
    else None
  }

  /** Formatting then reading gives the colour back. */
  lemma HexColorRoundTrip(c: Rgb)
    ensures ParseHexColor(HexColor(c)) == Some(c)
  {
    var s := HexColor(c);
    assert s[1..3] == Hex2(c.r) && s[3..5] == Hex2(c.g) && s[5..7] == Hex2(c.b);
  }

  /** Every well-formed `#rrggbb` string is the formatting of what it reads as. */
  lemma ParseHexColorRoundTrip(s: string)
    requires ParseHexColor(s).Some?
    ensures HexColor(ParseHexColor(s).value) == s
  {
    var r, g, b := s[1..3], s[3..5], s[5..7];
    assert r[0] == s[1] && r[1] == s[2] && g[0] == s[3] && g[1] == s[4] && b[0] == s[5] && b[1] == s[6];
    Hex2Parse(r);
    Hex2Parse(g);
    Hex2Parse(b);
    var c := ParseHexColor(s).value;
    assert Hex2(c.r) == r && Hex2(c.g) == g && Hex2(c.b) == b;
    assert s == "#" + r + g + b;
  }

  /** `get_dominant_color`: a cached RGB triple is formatted; a cached curses
      colour cannot be indexed, and the exception makes the answer `None`. */
  function DominantColorHex(svc: Services, cache: Cache, url: string): (o: Outcome<Option<string>>)
    ensures url in cache ==> o.cache == cache && o.fetches == 0
    ensures url in cache && cache[url].RgbColor? ==> o.value == Some(HexColor(cache[url].rgb))
    ensures url in cache && cache[url].PaletteColor? ==> o.value == None
    ensures url !in cache && !Fetched(svc.fetch(url)) ==> o == Outcome(None, cache, 1)
    ensures url !in cache && Fetched(svc.fetch(url)) ==>
      o.fetches == 1 && o.cache == cache[url := RgbColor(VibrantColor(svc, svc.fetch(url).value, 5))]
      && o.value == Some(HexColor(VibrantColor(svc, svc.fetch(url).value, 5)))
  {
    if url in cache then
      match cache[url]
      case RgbColor(rgb) => Outcome(Some(HexColor(rgb)), cache, 0)
      case PaletteColor(_) => Outcome(None, cache, 0)
    else
      var data := svc.fetch(url);
      if !Fetched(data) then Outcome(None, cache, 1)
      else
        var rgb := VibrantColor(svc, data.value, 5);
        Outcome(Some(HexColor(rgb)), cache[url := RgbColor(rgb)], 1)
  }

  /** The payload for `get_track_color`: `hasImages` says whether the
      playing track's album lists any image, `hex` is what the colour
      lookup answered for the first one. */
  function TrackColorReply(hasImages: bool, hex: Option<string>): (p: string)
    ensures !hasImages ==> p == "NO_ALBUM_ART_AVAILABLE"
    ensures hasImages && (hex.None? || hex.value == "") ==> p == "NO_COLOR_AVAILABLE"
    ensures hasImages && hex.Some? && hex.value != "" ==> |p| > 12 && p[..12] == "TRACK_COLOR:"
  {
    if !hasImages then "NO_ALBUM_ART_AVAILABLE"
    else if hex.Some? && hex.value != "" then "TRACK_COLOR:" + hex.value
    else "NO_COLOR_AVAILABLE"
  }

  /** A colour sent as a track-colour reply reads back as the same colour. */
  lemma TrackColorReplyReadsBack(c: Rgb)
    ensures var p := TrackColorReply(true, Some(HexColor(c)));
      |p| == 19 && p[..12] == "TRACK_COLOR:" && ParseHexColor(p[12..]) == Some(c)
  {
    var p := TrackColorReply(true, Some(HexColor(c)));
    assert p[12..] == HexColor(c);
    HexColorRoundTrip(c);
  }

  /** The cache only grows: existing entries are never overwritten, and at
      most the requested URL is added. */
  predicate Extends(before: Cache, after: Cache, url: string) {
    && (forall k :: k in before ==> k in after && after[k] == before[k])
    && (forall k :: k in after ==> k in before || k == url)
  }

  lemma LookupsOnlyExtend(svc: Services, cache: Cache, url: string)
    ensures Extends(cache, ColorForAlbum(svc, cache, url).cache, url)
    ensures Extends(cache, DominantColorHex(svc, cache, url).cache, url)
  {
    var a := ColorForAlbum(svc, cache, url);
    var d := DominantColorHex(svc, cache, url);
    if url !in cache {
      InsertExtends(cache, url, a.value);
      if Fetched(svc.fetch(url)) {
        InsertExtends(cache, url, RgbColor(VibrantColor(svc, svc.fetch(url).value, 5)));
      }
    }
  }

  /** Adding a new URL extends the cache, and so does leaving it alone. */
  lemma InsertExtends(cache: Cache, url: string, v: CacheValue)
    ensures url !in cache ==> Extends(cache, cache[url := v], url)
    ensures Extends(cache, cache, url)
  {
  }

  /** Asking twice for the same album fetches at most once: a successful
      first call fills the cache, and the second is a pure hit with the
      same answer. */
  lemma ColorForAlbumCached(svc: Services, cache: Cache, url: string)
    requires url != ""
    requires url in cache || Fetched(svc.fetch(url))
    ensures var first := ColorForAlbum(svc, cache, url);
      var second := ColorForAlbum(svc, first.cache, url);
      second == Outcome(first.value, first.cache, 0) && first.fetches + second.fetches <= 1
  {
  }

  lemma DominantColorHexCached(svc: Services, cache: Cache, url: string)
    requires url in cache || Fetched(svc.fetch(url))
    ensures var first := DominantColorHex(svc, cache, url);
      var second := DominantColorHex(svc, first.cache, url);
      second == Outcome(first.value, first.cache, 0) && first.fetches + second.fetches <= 1
  {
  }

  /** A failed fetch is not remembered: the next call tries again. */
  lemma FailedFetchRetried(svc: Services, cache: Cache, url: string)
    requires url !in cache && !Fetched(svc.fetch(url))
    ensures DominantColorHex(svc, cache, url).value == None
    ensures DominantColorHex(svc, DominantColorHex(svc, cache, url).cache, url).fetches == 1
    ensures url != "" ==> ColorForAlbum(svc, ColorForAlbum(svc, cache, url).cache, url).fetches == 1
  {
  }

  /** As written, the two writers share one cache. Once `get_dominant_color`
      has stored an RGB triple for an album, `get_color_for_album` hands that
      triple to the border as if it were a curses colour; once
      `get_color_for_album` has stored a curses colour, `get_dominant_color`
      answers `None` for a perfectly good image. */
  lemma SharedCacheConfusion(svc: Services, cache: Cache, url: string)
    requires url != "" && url !in cache && Fetched(svc.fetch(url))
    ensures ColorForAlbum(svc, DominantColorHex(svc, cache, url).cache, url).value.RgbColor?
    ensures DominantColorHex(svc, cache, url).value.Some?
    ensures DominantColorHex(svc, ColorForAlbum(svc, cache, url).cache, url).value == None
  {
  }

  /** The corrected layout: one cache per kind of result. */
  datatype Caches = Caches(palette: map<string, CursesColor>, rgb: map<string, Rgb>)

  datatype SplitOutcome<T> = SplitOutcome(value: T, caches: Caches, fetches: nat)

  /** The palette cache holds only what the mapper can answer. Starting
      from an empty cache, it stays so. */
  predicate NoBlack(caches: Caches) {
    forall k :: k in caches.palette ==> caches.palette[k] != Black
  }

  /** `get_color_for_album` over its own cache: the answer is always a
      curses colour, never black. */
  function AlbumColor(svc: Services, caches: Caches, url: string): (o: SplitOutcome<CursesColor>)
    ensures NoBlack(caches) ==> o.value != Black && NoBlack(o.caches)
    ensures o.caches.rgb == caches.rgb
    ensures url != "" && url in caches.palette ==> o == SplitOutcome(caches.palette[url], caches, 0)
    ensures url == "" || (url !in caches.palette && !Fetched(svc.fetch(url))) ==>
      o.value == White && o.caches == caches
    ensures o.fetches <= 1
  {
    if url == "" then SplitOutcome(White, caches, 0)
    else if url in caches.palette then SplitOutcome(caches.palette[url], caches, 0)
    else
      var data := svc.fetch(url);
      if !Fetched(data) then SplitOutcome(White, caches, 1)
      else
        var c := RgbToCurses(VibrantColor(svc, data.value, 8));
        SplitOutcome(c, caches.(palette := caches.palette[url := c]), 1)
  }

  /** `get_dominant_color` over its own cache. */
  function AlbumColorHex(svc: Services, caches: Caches, url: string): (o: SplitOutcome<Option<string>>)
    ensures o.caches.palette == caches.palette
    ensures url in caches.rgb ==> o == SplitOutcome(Some(HexColor(caches.rgb[url])), caches, 0)
    ensures url !in caches.rgb && !Fetched(svc.fetch(url)) ==> o == SplitOutcome(None, caches, 1)
    ensures url !in caches.rgb && Fetched(svc.fetch(url)) ==>
      o.value == Some(HexColor(VibrantColor(svc, svc.fetch(url).value, 5)))
      && o.caches.rgb == caches.rgb[url := VibrantColor(svc, svc.fetch(url).value, 5)]
  {
    if url in caches.rgb then SplitOutcome(Some(HexColor(caches.rgb[url])), caches, 0)
    else
      var data := svc.fetch(url);
      if !Fetched(data) then SplitOutcome(None, caches, 1)
      else
        var rgb := VibrantColor(svc, data.value, 5);
        SplitOutcome(Some(HexColor(rgb)), caches.(rgb := caches.rgb[url := rgb]), 1)
  }

  /** With one cache per writer, neither lookup disturbs the other: asking
      for the hex colour first does not change the border colour, and the
      reverse order still answers the hex colour of a good image. */
  lemma SplitCachesIndependent(svc: Services, caches: Caches, url: string)
    ensures AlbumColor(svc, AlbumColorHex(svc, caches, url).caches, url).value
      == AlbumColor(svc, caches, url).value
    ensures AlbumColorHex(svc, AlbumColor(svc, caches, url).caches, url).value
      == AlbumColorHex(svc, caches, url).value
    ensures url !in caches.rgb && Fetched(svc.fetch(url)) ==>
      AlbumColorHex(svc, AlbumColor(svc, caches, url).caches, url).value.Some?
  {
  }

  /** The red cover of the example above sets a red border. */
  lemma RedCoverRedBorder()
    ensures RgbToCurses(SaturatedColor([Swatch(Rgb(220, 0, 0), 90.0), Swatch(Rgb(250, 250, 250), 10.0)])) == Red
  {
    RedCoverPicksRed();
    PureRedMapsToRed();
  }
}
