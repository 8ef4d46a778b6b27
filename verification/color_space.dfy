/** Colours as the album-art pipeline sees them: 8-bit RGB triples, their
    HSV form (Python's `colorsys.rgb_to_hsv` on channels scaled to [0, 1]),
    and the perceptual HSV distance used to pick a palette entry.
    All arithmetic is exact rational arithmetic over `real`. */
module ColorSpace {

  type Channel = x: int | 0 <= x <= 255

  /** An RGB colour, each channel in [0, 255]. */
  datatype Rgb = Rgb(r: Channel, g: Channel, b: Channel)

  /** Hue, saturation and value, each normalised to [0, 1]; hue is circular. */
  datatype Hsv = Hsv(h: real, s: real, v: real)

  const WhiteRgb := Rgb(255, 255, 255)

  function Max3(a: real, b: real, c: real): (m: real)
    ensures m == a || m == b || m == c
    ensures a <= m && b <= m && c <= m
  {
    if a >= b && a >= c then a else if b >= c then b else c
  }

  function Min3(a: real, b: real, c: real): (m: real)
    ensures m == a || m == b || m == c
    ensures m <= a && m <= b && m <= c
  {
    if a <= b && a <= c then a else if b <= c then b else c
  }

  function Abs(x: real): (a: real)
    ensures a >= 0.0 && (a == x || a == -x)
  {
    if x < 0.0 then -x else x
  }

  /** Python's `x % 1.0` on a float: the non-negative fractional part. */
  function Frac(x: real): (f: real)
    ensures 0.0 <= f < 1.0
    ensures (x - f).Floor as real == x - f
  {
    x - x.Floor as real
  }

  function Scale(c: Channel): (x: real)
    ensures 0.0 <= x <= 1.0
  {
    c as real / 255.0
  }

  /** A grey: all three channels equal. */
  predicate IsGrey(c: Rgb) {
    c.r == c.g == c.b
  }

  function MaxChannel(c: Rgb): int {
    if c.r >= c.g && c.r >= c.b then c.r else if c.g >= c.b then c.g else c.b
  }

  function MinChannel(c: Rgb): int {
    if c.r <= c.g && c.r <= c.b then c.r else if c.g <= c.b then c.g else c.b
  }

  /** `a / b` for `0 <= a <= b` lies in [0, 1]; it is 0 only when `a` is. */
  lemma RatioBounds(a: real, b: real)
    requires 0.0 <= a <= b && b > 0.0
    ensures 0.0 <= a / b <= 1.0
    ensures a / b == 0.0 <==> a == 0.0
    ensures (a / b) * b == a
  {
  }

  /** The hexcone RGB to HSV conversion `rgb_to_hsv` performs through
      `colorsys`, on channels divided by 255. */
  function RgbToHsv(c: Rgb): (hsv: Hsv)
    ensures 0.0 <= hsv.h < 1.0 && 0.0 <= hsv.s <= 1.0 && 0.0 <= hsv.v <= 1.0
  {
    var r, g, b := Scale(c.r), Scale(c.g), Scale(c.b);
    var maxc := Max3(r, g, b);
    var minc := Min3(r, g, b);
    if minc == maxc then
      Hsv(0.0, 0.0, maxc)
    else
      RatioBounds(maxc - minc, maxc);
      Hsv(Hue(r, g, b, maxc, maxc - minc), (maxc - minc) / maxc, maxc)
  }

  /** The hue branch of `colorsys.rgb_to_hsv` for a colour that is not grey:
      the sextant offset of the largest channel (red first, then green),
      corrected by the other two, as a fraction of the circle. */
  function Hue(r: real, g: real, b: real, maxc: real, rangec: real): (h: real)
    requires rangec > 0.0
    ensures 0.0 <= h < 1.0
  {
    var rc := (maxc - r) / rangec;
    var gc := (maxc - g) / rangec;
    var bc := (maxc - b) / rangec;
    var h :=
      if r == maxc then bc - gc
      else if g == maxc then 2.0 + rc - bc
      else 4.0 + gc - rc;
    Frac(h / 6.0)
  }

  lemma ScaledExtremes(c: Rgb)
    ensures Max3(Scale(c.r), Scale(c.g), Scale(c.b)) == MaxChannel(c) as real / 255.0
    ensures Min3(Scale(c.r), Scale(c.g), Scale(c.b)) == MinChannel(c) as real / 255.0
    ensures MinChannel(c) <= MaxChannel(c)
    ensures IsGrey(c) <==> MinChannel(c) == MaxChannel(c)
  {
  }

  /** Value is the largest channel, scaled to [0, 1]. */
  lemma HsvValue(c: Rgb)
    ensures RgbToHsv(c).v == MaxChannel(c) as real / 255.0
  {
    ScaledExtremes(c);
  }

  /** Saturation is zero exactly for greys, whose hue is 0 as well. */
  lemma HsvGrey(c: Rgb)
    ensures IsGrey(c) <==> RgbToHsv(c).s == 0.0
    ensures IsGrey(c) ==> RgbToHsv(c).h == 0.0
  {
    ScaledExtremes(c);
    var maxc := MaxChannel(c) as real / 255.0;
    var minc := MinChannel(c) as real / 255.0;
    if !IsGrey(c) {
      RatioBounds(maxc - minc, maxc);
    }
  }

  /** Distance between two hues on the unit circle: `min(|h1-h2|, 1-|h1-h2|)`. */
  function HueDistance(h1: real, h2: real): (d: real)
    requires 0.0 <= h1 < 1.0 && 0.0 <= h2 < 1.0
    ensures 0.0 <= d <= 0.5
    ensures d == 0.0 <==> h1 == h2
  {
    var a := Abs(h1 - h2);
    if a <= 1.0 - a then a else 1.0 - a
  }

  lemma HueDistanceSymmetric(h1: real, h2: real)
    requires 0.0 <= h1 < 1.0 && 0.0 <= h2 < 1.0
    ensures HueDistance(h1, h2) == HueDistance(h2, h1)
  {
  }

  /** Turning a hue by `t` around the circle. */
  function Rotate(h: real, t: real): (r: real)
    requires 0.0 <= h < 1.0 && 0.0 <= t < 1.0
    ensures 0.0 <= r < 1.0
  {
    if h + t >= 1.0 then h + t - 1.0 else h + t
  }

  /** Hue distance is circular: turning both hues by the same amount keeps it. */
  lemma HueDistanceRotation(h1: real, h2: real, t: real)
    requires 0.0 <= h1 < 1.0 && 0.0 <= h2 < 1.0 && 0.0 <= t < 1.0
    ensures HueDistance(Rotate(h1, t), Rotate(h2, t)) == HueDistance(h1, h2)
  {
  }

  /** Hues just either side of 0 are closer to each other than to a hue half-way round. */
  lemma HueWrapAround()
    ensures HueDistance(0.05, 0.95) < HueDistance(0.05, 0.5)
  {
  }

  /** `color_distance_hsv`: 0.6 weight on hue, 0.3 on saturation, 0.1 on value. */
  function HsvDistance(a: Hsv, b: Hsv): real
    requires 0.0 <= a.h < 1.0 && 0.0 <= b.h < 1.0
  {
    0.6 * HueDistance(a.h, b.h) + 0.3 * Abs(a.s - b.s) + 0.1 * Abs(a.v - b.v)
  }

  /** The HSV distance is never negative and is zero exactly between equal forms. */
  lemma HsvDistanceZero(a: Hsv, b: Hsv)
    requires 0.0 <= a.h < 1.0 && 0.0 <= b.h < 1.0
    ensures HsvDistance(a, b) >= 0.0
    ensures HsvDistance(a, b) == 0.0 <==> a == b
  {
  }

  /** The perceptual distance between two RGB colours. */
  function ColorDistance(c1: Rgb, c2: Rgb): (d: real)
    ensures 0.0 <= d <= 0.7
  {
    HsvDistance(RgbToHsv(c1), RgbToHsv(c2))
  }

  lemma DistanceSymmetric(c1: Rgb, c2: Rgb)
    ensures ColorDistance(c1, c2) == ColorDistance(c2, c1)
  {
    HueDistanceSymmetric(RgbToHsv(c1).h, RgbToHsv(c2).h);
  }

  /** The distance is zero exactly between colours with the same HSV form. */
  lemma DistanceZero(c1: Rgb, c2: Rgb)
    ensures ColorDistance(c1, c2) == 0.0 <==> RgbToHsv(c1) == RgbToHsv(c2)
  {
  }

  lemma DistanceToSelf(c: Rgb)
    ensures ColorDistance(c, c) == 0.0
  {
  }
}
