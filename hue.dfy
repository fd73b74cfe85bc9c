/**
  * The colour mapper (`mapEmotionToHue`): an aggregate snapshot becomes a
  * light command, either from the preset of its dominant emotion group or,
  * when the aggregate carries both valence and arousal, from a continuous
  * valence/arousal -> HSL -> RGB -> CIE xy conversion.
  *
  * The only numerics not modelled exactly are the power law of the sRGB
  * transfer curve, `Math.pow((c + 0.055) / 1.055, 2.4)`, which is the
  * parameter `gamma`, and the binary floating-point representation of reals.
  */
module HueMapping {
  import opened EmotionScores
  import opened Window
  import opened Classification

  datatype Xy = Xy(x: real, y: real)

  /** `{ xy, brightness }`: a preset, or the result of `mapValenceArousal`. */
  datatype Light = Light(xy: Xy, brightness: int)

  /** `HueState`; its `label` is `tag` here (`label` is reserved in Dafny). */
  datatype HueState = HueState(xy: Xy, brightness: int, transitionMs: int, tag: string, confidence: real)

  datatype Rgb = Rgb(r: real, g: real, b: real)

  /** Hue in degrees, saturation and lightness in percent. */
  datatype Hsl = Hsl(hue: real, saturation: real, lightness: real)

  datatype Xyz = Xyz(x: real, y: real, z: real)

  const DefaultTransitionMs := 800

  /** HUE_PRESETS */
  const HuePresets: seq<(string, Light)> := [
    ("happy", Light(Xy(0.52, 0.42), 90)),
    ("calm", Light(Xy(0.44, 0.4), 55)),
    ("sad", Light(Xy(0.16, 0.08), 35)),
    ("angry", Light(Xy(0.7, 0.3), 75)),
    ("fear", Light(Xy(0.27, 0.12), 60)),
    ("neutral", Light(Xy(0.33, 0.33), 50))
  ]

  function Lookup(tag: string, table: seq<(string, Light)>): (r: Option<Light>)
    ensures r.Some? ==> (tag, r.value) in table
    ensures r.None? ==> forall i :: 0 <= i < |table| ==> table[i].0 != tag
  {
    if table == [] then None
    else if table[0].0 == tag then Some(table[0].1)
    else Lookup(tag, table[1..])
  }

  /**
    * `HUE_PRESETS[label] ?? HUE_PRESETS.neutral`. Names inherited from
    * `Object.prototype` (such as "constructor") are not modelled: the only
    * labels that reach this lookup are the six group names.
    */
  function PresetFor(tag: string): (p: Light)
    ensures tag in GroupNames ==> (tag, p) in HuePresets
    ensures tag !in GroupNames ==> p == Light(Xy(0.33, 0.33), 50)
  {
    Lookup(tag, HuePresets).GetOr(HuePresets[5].1)
  }

  function Max(a: real, b: real): real { if a >= b then a else b }

  function Min(a: real, b: real): real { if a <= b then a else b }

  /** `Math.max(lo, Math.min(hi, x))` */
  function Clamp(x: real, lo: real, hi: real): (r: real)
    requires lo <= hi
    ensures lo <= r <= hi
    ensures lo <= x <= hi ==> r == x
    ensures x < lo ==> r == lo
    ensures hi < x ==> r == hi
  {
    Max(lo, Min(hi, x))
  }

  /** `Math.round`: the nearest integer, a half rounded up. */
  function Round(x: real): (n: int)
    ensures n as real - 0.5 <= x < n as real + 0.5
  {
    (x + 0.5).Floor
  }

  /** `Number(x.toFixed(4))`: `x` to four decimals, a half rounded away from zero. */
  function Fixed4(x: real): (r: real)
    ensures -0.00005 <= r - x <= 0.00005
    ensures 0.0 <= x <= 1.0 ==> 0.0 <= r <= 1.0
  {
    if x < 0.0 then -(Round(-x * 10000.0) as real / 10000.0)
    else Round(x * 10000.0) as real / 10000.0
  }

  /** The phase of `hue2rgb` after its two corrections into [0, 1]. */
  function Phase(t0: real): (t: real)
    ensures -1.0 <= t0 <= 2.0 ==> 0.0 <= t <= 1.0
  {
    var t1 := if t0 < 0.0 then t0 + 1.0 else t0;
    if t1 > 1.0 then t1 - 1.0 else t1
  }

  /** `p + (q - p) * f`, the straight line from `p` (at 0) to `q` (at 1). */
  function Lerp(p: real, q: real, f: real): real
  {
    p + (q - p) * f
  }

  /** The `hue2rgb` helper: one channel from the phase `t0` of the hue. */
  function Hue2Rgb(p: real, q: real, t0: real): real
  {
    var t := Phase(t0);
    if t < 1.0 / 6.0 then Lerp(p, q, 6.0 * t)
    else if t < 1.0 / 2.0 then q
    else if t < 2.0 / 3.0 then Lerp(p, q, (2.0 / 3.0 - t) * 6.0)
    else p
  }

  /** The two breakpoints `p` and `q` of `hslToRgb`. */
  function Breakpoints(s: real, l: real): (pq: (real, real))
  {
    var q := if l < 0.5 then l * (1.0 + s) else l + s - l * s;
    (2.0 * l - q, q)
  }

  /** `hslToRgb`, with `h`, `s` and `l` as fractions. */
  function HslToRgb(h: real, s: real, l: real): Rgb
  {
    if s == 0.0 then Rgb(l, l, l)
    else
      var (p, q) := Breakpoints(s, l);
      Rgb(Hue2Rgb(p, q, h + 1.0 / 3.0), Hue2Rgb(p, q, h), Hue2Rgb(p, q, h - 1.0 / 3.0))
  }

  /** For saturation and lightness in [0, 1]: 0 <= p <= l <= q <= 1 and p + q == 2l. */
  lemma BreakpointsInUnit(s: real, l: real)
    requires 0.0 <= s <= 1.0 && 0.0 <= l <= 1.0
    ensures var (p, q) := Breakpoints(s, l);
            0.0 <= p <= l <= q <= 1.0 && p + q == 2.0 * l
  {
    if l < 0.5 {
      assert 0.0 <= l * s <= l;
    } else {
      Interpolates(0.0, 1.0 - l, s);
      assert l + s - l * s == l + Lerp(0.0, 1.0 - l, s);
    }
  }

  /** The straight line from `p` to `q` stays between them on [0, 1]. */
  lemma Interpolates(p: real, q: real, f: real)
    requires p <= q && 0.0 <= f <= 1.0
    ensures p <= Lerp(p, q, f) <= q
  {
    var d := q - p;
    assert 0.0 <= d * f by {
      assert 0.0 <= d && 0.0 <= f;
    }
    assert 0.0 <= d * (1.0 - f) by {
      assert 0.0 <= d && 0.0 <= 1.0 - f;
    }
    assert d * f + d * (1.0 - f) == d;
  }

  /** A channel lies between the breakpoints whenever the phase is within one turn of [0, 1]. */
  lemma Hue2RgbBetween(p: real, q: real, t0: real)
    requires p <= q
    requires -1.0 <= t0 <= 2.0
    ensures p <= Hue2Rgb(p, q, t0) <= q
  {
    var t := Phase(t0);
    if t < 1.0 / 6.0 {
      Interpolates(p, q, 6.0 * t);
    } else if 1.0 / 2.0 <= t < 2.0 / 3.0 {
      Interpolates(p, q, (2.0 / 3.0 - t) * 6.0);
    }
  }

  predicate InUnit(c: Rgb)
  {
    0.0 <= c.r <= 1.0 && 0.0 <= c.g <= 1.0 && 0.0 <= c.b <= 1.0
  }

  /** Every channel of `hslToRgb` lies in [0, 1] for `h`, `s` and `l` in [0, 1]. */
  lemma HslToRgbInUnit(h: real, s: real, l: real)
    requires 0.0 <= h <= 1.0 && 0.0 <= s <= 1.0 && 0.0 <= l <= 1.0
    ensures InUnit(HslToRgb(h, s, l))
  {
    if s != 0.0 {
      BreakpointsInUnit(s, l);
      var (p, q) := Breakpoints(s, l);
      Hue2RgbBetween(p, q, h + 1.0 / 3.0);
      Hue2RgbBetween(p, q, h);
      Hue2RgbBetween(p, q, h - 1.0 / 3.0);
    }
  }

  /** The `toLinear` helper; `gamma` stands for `c => Math.pow((c + 0.055) / 1.055, 2.4)`. */
  function ToLinear(c: real, gamma: real -> real): real
  {
    if c > 0.04045 then gamma(c) else c / 12.92
  }

  /** What every reading of the power law satisfies: it is positive on its branch. */
  ghost predicate PositiveGamma(gamma: real -> real)
  {
    forall c :: c > 0.04045 ==> gamma(c) > 0.0
  }

  /** Linear RGB to CIE XYZ with the fixed matrix of `rgbToXy`. */
  function ToXyz(c: Rgb, gamma: real -> real): Xyz
  {
    var rl := ToLinear(c.r, gamma);
    var gl := ToLinear(c.g, gamma);
    var bl := ToLinear(c.b, gamma);
    Xyz(rl * 0.664511 + gl * 0.154324 + bl * 0.162028,
        rl * 0.283881 + gl * 0.668433 + bl * 0.047685,
        rl * 0.000088 + gl * 0.07231 + bl * 0.986039)
  }

  /** `rgbToXy`: the chromaticity of the colour, or (0.33, 0.33) when X + Y + Z is 0. */
  function RgbToXy(c: Rgb, gamma: real -> real): Xy
  {
    var xyz := ToXyz(c, gamma);
    var sum := xyz.x + xyz.y + xyz.z;
    if sum == 0.0 then Xy(0.33, 0.33)
    else Xy(Fixed4(xyz.x / sum), Fixed4(xyz.y / sum))
  }

  lemma LinearChannel(c: real, gamma: real -> real)
    requires PositiveGamma(gamma)
    requires 0.0 <= c
    ensures 0.0 <= ToLinear(c, gamma)
    ensures ToLinear(c, gamma) == 0.0 <==> c == 0.0
  {
  }

  /**
    * For channels in [0, 1], X + Y + Z is 0 exactly for black, so the
    * fallback point (0.33, 0.33) is returned exactly for black.
    */
  lemma ZeroSumOnlyForBlack(c: Rgb, gamma: real -> real)
    requires PositiveGamma(gamma)
    requires InUnit(c)
    ensures var xyz := ToXyz(c, gamma); xyz.x + xyz.y + xyz.z == 0.0 <==> c == Rgb(0.0, 0.0, 0.0)
    ensures c == Rgb(0.0, 0.0, 0.0) ==> RgbToXy(c, gamma) == Xy(0.33, 0.33)
  {
    LinearChannel(c.r, gamma);
    LinearChannel(c.g, gamma);
    LinearChannel(c.b, gamma);
  }

  lemma RatioInUnit(x: real, sum: real)
    requires 0.0 <= x <= sum && sum != 0.0
    ensures 0.0 <= x / sum <= 1.0
  {
    assert x / sum * sum == x;
  }

  /** For channels in [0, 1], both chromaticity coordinates lie in [0, 1]. */
  lemma RgbToXyInUnit(c: Rgb, gamma: real -> real)
    requires PositiveGamma(gamma)
    requires InUnit(c)
    ensures var xy := RgbToXy(c, gamma); 0.0 <= xy.x <= 1.0 && 0.0 <= xy.y <= 1.0
  {
    LinearChannel(c.r, gamma);
    LinearChannel(c.g, gamma);
    LinearChannel(c.b, gamma);
    var xyz := ToXyz(c, gamma);
    var sum := xyz.x + xyz.y + xyz.z;
    if sum != 0.0 {
      assert 0.0 <= xyz.x && 0.0 <= xyz.y && 0.0 <= xyz.z;
      RatioInUnit(xyz.x, sum);
      RatioInUnit(xyz.y, sum);
    }
  }

  /** `hslToXy`: degrees and percentages to chromaticity. */
  function HslToXy(c: Hsl, gamma: real -> real): Xy
  {
    RgbToXy(HslToRgb(c.hue / 360.0, c.saturation / 100.0, c.lightness / 100.0), gamma)
  }

  /**
    * The colour of `mapValenceArousal`, after clamping valence to [-1, 1] and
    * arousal to [0, 1]: hue 30 + (v + 1) * 120 runs from 30 to 270 degrees
    * (the comment beside it in the source says 150), saturation from 50 to
    * 100 and lightness from 45 to 75 percent.
    */
  function ValenceArousalHsl(valence: real, arousal: real): (c: Hsl)
    ensures 30.0 <= c.hue <= 270.0
    ensures 50.0 <= c.saturation <= 100.0
    ensures 45.0 <= c.lightness <= 75.0
  {
    var v := Clamp(valence, -1.0, 1.0);
    var a := Clamp(arousal, 0.0, 1.0);
    Hsl(30.0 + (v + 1.0) * 120.0, 50.0 + a * 50.0, 45.0 + a * 30.0)
  }

  /** The brightness of `mapValenceArousal`: `round(30 + 70 a)` for the clamped arousal. */
  function ArousalBrightness(arousal: real): (n: int)
    ensures 30 <= n <= 100
  {
    Round(30.0 + Clamp(arousal, 0.0, 1.0) * 70.0)
  }

  /** `mapValenceArousal` */
  function MapValenceArousal(valence: real, arousal: real, gamma: real -> real): Light
  {
    Light(HslToXy(ValenceArousalHsl(valence, arousal), gamma), ArousalBrightness(arousal))
  }

  /** The continuous branch gives chromaticity in the unit square and brightness in [30, 100]. */
  lemma MapValenceArousalBounds(valence: real, arousal: real, gamma: real -> real)
    requires PositiveGamma(gamma)
    ensures var light := MapValenceArousal(valence, arousal, gamma);
            && 0.0 <= light.xy.x <= 1.0 && 0.0 <= light.xy.y <= 1.0
            && 30 <= light.brightness <= 100
  {
    var c := ValenceArousalHsl(valence, arousal);
    HslToRgbInUnit(c.hue / 360.0, c.saturation / 100.0, c.lightness / 100.0);
    RgbToXyInUnit(HslToRgb(c.hue / 360.0, c.saturation / 100.0, c.lightness / 100.0), gamma);
  }

  /** Out-of-range inputs behave like the nearest end of their range. */
  lemma ClampedInputs(valence: real, arousal: real, gamma: real -> real)
    ensures MapValenceArousal(valence, arousal, gamma)
            == MapValenceArousal(Clamp(valence, -1.0, 1.0), Clamp(arousal, 0.0, 1.0), gamma)
    ensures MapValenceArousal(5.0, arousal, gamma) == MapValenceArousal(1.0, arousal, gamma)
    ensures MapValenceArousal(valence, -3.0, gamma) == MapValenceArousal(valence, 0.0, gamma)
  {
  }

  /** The hue at the ends and the middle of the valence range. */
  lemma HueEndpoints(arousal: real)
    ensures ValenceArousalHsl(-1.0, arousal).hue == 30.0
    ensures ValenceArousalHsl(0.0, arousal).hue == 150.0
    ensures ValenceArousalHsl(1.0, arousal).hue == 270.0
  {
  }

  /** Gray with lightness 0 (black) takes the fallback point. */
  lemma BlackIsFallback(h: real, gamma: real -> real)
    ensures HslToXy(Hsl(h, 0.0, 0.0), gamma) == Xy(0.33, 0.33)
  {
  }

  /**
    * `s.replace(pat, rep)` with a string pattern: only the first occurrence
    * is replaced. The `$&`, `$$`, `` $` `` and `$'` patterns JavaScript
    * expands in `rep` are not modelled; the one replacement used here,
    * "valence/arousal", contains no `$`.
    */
  function ReplaceFirst(s: string, pat: string, rep: string): string
    decreases |s|
  {
    if |s| < |pat| then s
    else if s[..|pat|] == pat then rep + s[|pat|..]
    else [s[0]] + ReplaceFirst(s[1..], pat, rep)
  }

  /** A shift of the occurrences by one position. */
  lemma OccursAtTail(s: string, pat: string, j: nat)
    requires s != []
    ensures OccursAt(s, pat, j + 1) <==> OccursAt(s[1..], pat, j)
  {
    if j + 1 + |pat| <= |s| {
      assert s[1..][j..j + |pat|] == s[j + 1..j + 1 + |pat|];
    }
  }

  /** Without an occurrence of `pat` the string is unchanged. */
  lemma {:induction false} ReplaceFirstAbsent(s: string, pat: string, rep: string)
    requires !Contains(s, pat)
    ensures ReplaceFirst(s, pat, rep) == s
  {
    if |s| >= |pat| {
      assert !OccursAt(s, pat, 0);
      ReplaceFirstSkip(s, pat, rep);
      forall j: nat | j <= |s[1..]| ensures !OccursAt(s[1..], pat, j) {
        OccursAtTail(s, pat, j);
      }
      ReplaceFirstAbsent(s[1..], pat, rep);
    }
  }

  /** Without an occurrence at the front, the first character is kept and the rest is searched. */
  lemma ReplaceFirstSkip(s: string, pat: string, rep: string)
    requires |pat| <= |s| && !OccursAt(s, pat, 0)
    ensures s != [] && ReplaceFirst(s, pat, rep) == [s[0]] + ReplaceFirst(s[1..], pat, rep)
  {
  }

  /** The first occurrence of `pat`, at `i`, is replaced by `rep`. */
  lemma {:induction false} ReplaceFirstAt(s: string, pat: string, rep: string, i: nat)
    requires OccursAt(s, pat, i)
    requires forall j: nat :: j < i ==> !OccursAt(s, pat, j)
    ensures ReplaceFirst(s, pat, rep) == s[..i] + rep + s[i + |pat|..]
  {
    if i > 0 {
      ReplaceFirstSkip(s, pat, rep);
      forall j: nat | j < i - 1 ensures !OccursAt(s[1..], pat, j) {
        OccursAtTail(s, pat, j);
      }
      OccursAtTail(s, pat, i - 1);
      ReplaceFirstAt(s[1..], pat, rep, i - 1);
      assert s[..i] == [s[0]] + s[1..][..i - 1];
      assert s[i + |pat|..] == s[1..][i - 1 + |pat|..];
    }
  }

  /** The label of the continuous branch. */
  function ValenceArousalLabel(tag: string): string
  {
    ReplaceFirst(tag + " (valence/arousal)", "neutral (valence/arousal)", "valence/arousal")
  }

  /**
    * For every group name the replacement only fires for "neutral", which
    * collapses to the bare "valence/arousal".
    */
  lemma ValenceArousalLabelQuirk(tag: string)
    requires tag in GroupNames
    ensures ValenceArousalLabel(tag) == if tag == "neutral" then "valence/arousal" else tag + " (valence/arousal)"
  {
    if tag == "neutral" {
      assert "neutral" + " (valence/arousal)" == "neutral (valence/arousal)";
    }
  }

  /** `mapEmotionToHue` */
  function MapEmotionToHue(snapshot: Aggregate, gamma: real -> real): (r: HueState)
    ensures r.transitionMs == 800
    ensures r.confidence == Dominant(snapshot.emotions).confidence
    ensures snapshot.valence.Some? && snapshot.arousal.Some? ==>
              var tag := Dominant(snapshot.emotions).tag;
              r.tag == (if tag == "neutral" then "valence/arousal" else tag + " (valence/arousal)")
    ensures snapshot.valence.Some? && snapshot.arousal.Some? ==>
              Light(r.xy, r.brightness) == MapValenceArousal(snapshot.valence.value, snapshot.arousal.value, gamma)
    ensures snapshot.valence.Some? && snapshot.arousal.Some? && PositiveGamma(gamma) ==>
              0.0 <= r.xy.x <= 1.0 && 0.0 <= r.xy.y <= 1.0 && 30 <= r.brightness <= 100
    ensures !(snapshot.valence.Some? && snapshot.arousal.Some?) ==>
              r.tag == Dominant(snapshot.emotions).tag && (r.tag, Light(r.xy, r.brightness)) in HuePresets
  {
    var d := Dominant(snapshot.emotions);
    DominantLabel(snapshot.emotions);
    if snapshot.valence.Some? && snapshot.arousal.Some? then
      var light := MapValenceArousal(snapshot.valence.value, snapshot.arousal.value, gamma);
      ValenceArousalLabelQuirk(d.tag);
      assert PositiveGamma(gamma) ==>
               0.0 <= light.xy.x <= 1.0 && 0.0 <= light.xy.y <= 1.0 && 30 <= light.brightness <= 100 by {
        if PositiveGamma(gamma) {
          MapValenceArousalBounds(snapshot.valence.value, snapshot.arousal.value, gamma);
        }
      }
      HueState(light.xy, light.brightness, DefaultTransitionMs, ValenceArousalLabel(d.tag), d.confidence)
    else
      var preset := PresetFor(d.tag);
      HueState(preset.xy, preset.brightness, DefaultTransitionMs, d.tag, d.confidence)
  }

  /** The source's test cases: joy 0.9 maps to the happy preset, sad 0.8 to the sad preset. */
  lemma PresetExamples(gamma: real -> real)
    ensures MapEmotionToHue(Aggregate([("joy", 0.9)], None, None), gamma)
            == HueState(Xy(0.52, 0.42), 90, 800, "happy", 0.9)
    ensures MapEmotionToHue(Aggregate([("sad", 0.8)], None, None), gamma)
            == HueState(Xy(0.16, 0.08), 35, 800, "sad", 0.8)
  {
    ClassifyJoy();
    ClassifySad();
  }

  /** No emotions with valence 1 and arousal 0: the bare label, brightness 30, hue 270. */
  lemma ValenceArousalExample(gamma: real -> real)
    ensures var r := MapEmotionToHue(Aggregate([], Some(1.0), Some(0.0)), gamma);
            r.tag == "valence/arousal" && r.brightness == 30 && r.confidence == 0.0
    ensures ValenceArousalHsl(1.0, 0.0) == Hsl(270.0, 50.0, 45.0)
  {
  }
}
