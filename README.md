# Emotion-to-light mapping: a Dafny model

The system listens to a live speech-emotion stream (the Hume streaming API),
keeps a short sliding window of the emotion snapshots it receives, averages
them, and turns the average into a command for a Philips Hue light: a CIE xy
colour point, a brightness, a transition time and a label.

This project models the two parts of the system that hold its logic and
proves what they promise:

- **The colour mapper** (`src/mapping/emotionToHue.ts`), in four files:
  - `scores.dfy` (module `EmotionScores`) holds emotion records. They are
    JavaScript objects from emotion name to score, modelled as association lists
    in insertion order. `Put` is object assignment. `Assign` is a run of
    assignments.
  - `window.dfy` (module `Window`) holds the `EmotionWindow` class:
    - `Add`, `GetAggregate` and `Trim` update its `samples` field;
    - the averaging loops are specified by the function `AggregateOf`.
  - `dominant.dfy` (module `Classification`) holds `dominantEmotion`:
    - it is a loop proved against the first-maximum function `Dominant`;
    - it classifies the winning key by substring match against the six
      vocabularies.
  - `hue.dfy` (module `HueMapping`) holds `mapEmotionToHue`:
    - the preset table;
    - the valence/arousal path through HSL, RGB and CIE xy;
    - the label rewrite.
- **The Hume client** (`src/hume/client.ts`), in `hume.dfy` (module
  `HumeDecoder`):
  - `handleMessage` is a decoder from a parsed JSON message to the list of
    events it emits. Its loops are proved against the function `DecodeMessage`.
  - The `HumeClient` class holds the reconnect counter and the closed flag,
    with the backoff rule `min(1000 * 2^attempts, 15000)`.

The clock reading `Date.now()` is the parameter `now`. `JSON.parse` is
replaced by its result, a `Parse` value (`Malformed` or a `Json` tree). The
power law of the sRGB transfer curve is the parameter `gamma`. Numbers are
mathematical reals.

## Model

| member | source | states |
|---|---|---|
| `EmotionScores.Put` | src/mapping/emotionToHue.ts:61 | Object assignment `m[k] = v`. A new key is appended and an existing key keeps its place. `k` reads back `v` and every other key reads what it read before. Unique keys stay unique. |
| `EmotionScores.Get` | src/mapping/emotionToHue.ts:61 | The property read `totals[key]`: the value bound at the key's first position, or `undefined` when it is not a key. `Put` and `GetAt` state what it reads back. |
| `EmotionScores.Assign` | src/hume/client.ts:111-119 | Assigning a list of name/score pairs one after another gives a record whose keys are the names in order of first appearance. Each key reads the value of its last assignment. |
| `EmotionScores.AssignIsRecord` | src/hume/client.ts:111-119 | The record built by assignments has each key once. |
| `EmotionScores.Dedup` | src/mapping/emotionToHue.ts:75 | The keys of a run of assignments: the same members as the input, each once. |
| `EmotionScores.DedupOrder` | src/mapping/emotionToHue.ts:60-61 | The keys come in the order of their first occurrences in the input, as insertion into an object orders them. |
| `EmotionScores.ScoreOfRecord` | src/mapping/emotionToHue.ts:61 | In a record, the sum of the values bound to a key is its value, or 0 for a missing key (`?? 0`). |
| `Window.Retain` | src/mapping/emotionToHue.ts:86-89 | The trim filter keeps exactly the samples stamped at or after the cutoff, and never more samples than it was given. |
| `Window.Stamp` | src/mapping/emotionToHue.ts:43-44 | The stored sample keeps its scores, valence and arousal, and is stamped with its own timestamp or else with `now`. |
| `Window.RetainConcat` | src/mapping/emotionToHue.ts:88 | Filtering distributes over concatenation, so the kept samples stay in order. |
| `Window.RetainLater` | src/mapping/emotionToHue.ts:86-89 | Trimming at a cutoff and then at a later one equals trimming once at the later one. Repeated trims at one clock reading are idempotent. |
| `Window.StaleSampleDropped` | src/mapping/emotionToHue.ts:42-46 | A sample whose explicit timestamp is before `now - windowMs` is dropped by the very `add` that stores it. |
| `Window.WindowBoundary` | src/mapping/emotionToHue.ts:87-88 | With the 4000 ms default, a sample stamped 0 is kept at clock 3999 and 4000, and gone at 4001. |
| `Window.AddScores` | src/mapping/emotionToHue.ts:60-62 | The inner loop adds each score of a sample to the running totals. A key's new total is the old total (0 if absent) plus the key's score. Keys keep their first-appearance order. |
| `Window.DivideAll` | src/mapping/emotionToHue.ts:74-77 | The second loop divides every total by the sample count, entry by entry, in order. |
| `Window.Average` | src/mapping/emotionToHue.ts:50-83 | The loops of `getAggregate` compute exactly `AggregateOf` of the window. |
| `Window.AggregateOf` | src/mapping/emotionToHue.ts:48-83 | The specification of `getAggregate` on the trimmed buffer: per-key sums over all samples divided by the sample count, and means of the supplied valence and arousal. `AggregateKeys`, `AggregateScores` and `AggregateReading` state its properties. |
| `Window.AggregateKeys` | src/mapping/emotionToHue.ts:53-61 | The aggregate has each key once. A key is in it exactly when some sample in the window has it. |
| `Window.AggregateScores` | src/mapping/emotionToHue.ts:73-77 | A key's aggregate value is its sum over the window divided by the number of ALL samples, with a missing key read as 0. A key that no sample has is absent. |
| `Window.AggregateReading` | src/mapping/emotionToHue.ts:63-82 | Aggregate valence (or arousal) is absent exactly when no sample supplied one. Otherwise it is the mean of only the supplied values. |
| `Window.ZeroFillExample` | src/mapping/emotionToHue.ts:53-77 | `{joy: 1}` and `{sad: 1}` average to `{joy: 0.5, sad: 0.5}`. |
| `Window.PartialValenceExample` | src/mapping/emotionToHue.ts:63-82 | A sample with valence 0.5 and one without average to valence 0.5. |
| `Window.EmotionWindow.constructor` | src/mapping/emotionToHue.ts:39-40 | A new window is empty with the given `windowMs` (4000 by default). |
| `Window.EmotionWindow.Add` | src/mapping/emotionToHue.ts:42-46 | The buffer becomes the earlier samples plus the new one, stamped `now` when it had no timestamp, filtered at `now - windowMs`. Every sample left is stamped no earlier than the cutoff. |
| `Window.EmotionWindow.GetAggregate` | src/mapping/emotionToHue.ts:48-52 | The buffer is trimmed and the result is `AggregateOf` of what is left. An empty window gives empty emotions with valence and arousal absent. |
| `Window.EmotionWindow.Trim` | src/mapping/emotionToHue.ts:86-89 | The buffer becomes its samples stamped at or after `now - windowMs`, in order. |
| `Classification.FirstGroup` | src/mapping/emotionToHue.ts:132-136 | No group is found exactly when no group's vocabulary has a word occurring in the key. A group found is one of the table's groups. |
| `Classification.FirstGroupIsFirstMatch` | src/mapping/emotionToHue.ts:132-136 | A group that matches after groups that do not is the one chosen, so the table order decides. |
| `Classification.Classify` | src/mapping/emotionToHue.ts:131-138 | The label of a key is always one of the six group names. |
| `Classification.ClassifySpec` | src/mapping/emotionToHue.ts:18-25 | The label is the first group, in the order happy, calm, sad, angry, fear, neutral, with a word that is a substring of the lower-cased key. With no such group the label is "neutral". |
| `Classification.ClassifyIgnoresCase` | src/mapping/emotionToHue.ts:131 | Classifying a key and its lower-cased form gives the same label. |
| `Classification.AsciiLower` | src/mapping/emotionToHue.ts:131 | `toLowerCase` on ASCII letters; `ClassifyIgnoresCase` uses it. |
| `Classification.Contains` | src/mapping/emotionToHue.ts:133 | `includes`: the word occurs at some position of the key. |
| `Classification.Mentions` | src/mapping/emotionToHue.ts:133 | `list.some(...)`: some word of the group's vocabulary occurs in the key. `FirstGroup` is proved against it. |
| `Classification.BestIndex` | src/mapping/emotionToHue.ts:124-129 | The chosen key has the largest score, and every earlier key scores strictly less (ties go to the first). |
| `Classification.FirstMaxUnique` | src/mapping/emotionToHue.ts:124-129 | Only one index can be the first maximum. |
| `Classification.Dominant` | src/mapping/emotionToHue.ts:116-139 | The specification of `dominantEmotion`: ('neutral', 0) for no scores, otherwise the classified first maximum with its score. `DominantEmotion` is proved equal to it, and `DominantLabel` and `BestIndex` state its properties. |
| `Classification.DominantEmotion` | src/mapping/emotionToHue.ts:116-139 | Empty scores give ("neutral", 0). Otherwise the confidence is the largest score and the label classifies the first key reaching it. The label is one of the six groups. |
| `Classification.DominantLabel` | src/mapping/emotionToHue.ts:131-138 | The fallback label "neutral" still carries the best score as confidence. |
| `Classification.ClassifyJoy` | test/emotionToHue.test.ts:5-9 | The key "joy" is classified as "happy". |
| `Classification.ClassifySad` | test/emotionToHue.test.ts:11-15 | The key "sad" is classified as "sad". |
| `HueMapping.Lookup` | src/mapping/emotionToHue.ts:106 | A table lookup finds a pair of the table, or reports that no entry has the name. |
| `HueMapping.PresetFor` | src/mapping/emotionToHue.ts:106 | A group name gets its entry of the preset table (27-34). Any other string that is not a table key gets the neutral preset; labels are always group names, so names that `Object.prototype` supplies never reach the lookup. |
| `HueMapping.Clamp` | src/mapping/emotionToHue.ts:142-143 | `Math.max(lo, Math.min(hi, x))` lies in `[lo, hi]`. It is `x` inside the range and the nearer end outside it. |
| `HueMapping.Round` | src/mapping/emotionToHue.ts:148 | `Math.round` gives the integer within half a unit, a half rounded up. |
| `HueMapping.Fixed4` | src/mapping/emotionToHue.ts:192 | `Number(x.toFixed(4))` is within 0.00005 of `x` and keeps a value of [0, 1] in [0, 1]. |
| `HueMapping.Phase` | src/mapping/emotionToHue.ts:162-163 | The two phase corrections of `hue2rgb` bring any phase of [-1, 2] into [0, 1]. |
| `HueMapping.Breakpoints` | src/mapping/emotionToHue.ts:170-171 | The breakpoints `q = l < 0.5 ? l(1 + s) : l + s - ls` and `p = 2l - q`. `BreakpointsInUnit` bounds them. |
| `HueMapping.Hue2Rgb` | src/mapping/emotionToHue.ts:161-168 | `hue2rgb`: after the phase corrections, the rising ramp below 1/6, `q` below 1/2, the falling ramp below 2/3 and `p` after. `Hue2RgbBetween` bounds it. |
| `HueMapping.BreakpointsInUnit` | src/mapping/emotionToHue.ts:170-171 | For `s` and `l` in [0, 1]: `0 <= p <= l <= q <= 1` and `p + q == 2l`. |
| `HueMapping.Interpolates` | src/mapping/emotionToHue.ts:164-166 | The ramps of `hue2rgb` stay between `p` and `q`. |
| `HueMapping.Hue2RgbBetween` | src/mapping/emotionToHue.ts:161-168 | A channel from `hue2rgb` lies between `p` and `q` for every phase within one turn of [0, 1]. |
| `HueMapping.HslToRgb` | src/mapping/emotionToHue.ts:157-176 | `hslToRgb`: gray `(l, l, l)` at saturation 0, otherwise the three channels at phases `h + 1/3`, `h` and `h - 1/3`. `HslToRgbInUnit` bounds it. |
| `HueMapping.HslToRgbInUnit` | src/mapping/emotionToHue.ts:157-176 | Every channel of `hslToRgb` lies in [0, 1] when `h`, `s` and `l` do. |
| `HueMapping.ToLinear` | src/mapping/emotionToHue.ts:179 | `toLinear`: the power law above 0.04045, `c / 12.92` at or below it. `LinearChannel` states its sign. |
| `HueMapping.ToXyz` | src/mapping/emotionToHue.ts:180-186 | The linearised channels through the fixed RGB-to-XYZ matrix. |
| `HueMapping.RgbToXy` | src/mapping/emotionToHue.ts:178-193 | `rgbToXy`: (0.33, 0.33) when X + Y + Z is 0, else X and Y over the sum to four decimals. `RgbToXyInUnit` and `ZeroSumOnlyForBlack` state its properties. |
| `HueMapping.LinearChannel` | src/mapping/emotionToHue.ts:179 | A non-negative channel linearises to a non-negative value, and to 0 exactly when it is 0. |
| `HueMapping.ZeroSumOnlyForBlack` | src/mapping/emotionToHue.ts:188-191 | For channels in [0, 1], X + Y + Z is 0 exactly for black. The fallback point (0.33, 0.33) is returned for black. |
| `HueMapping.RgbToXyInUnit` | src/mapping/emotionToHue.ts:178-193 | For channels in [0, 1], both chromaticity coordinates lie in [0, 1]. |
| `HueMapping.HslToXy` | src/mapping/emotionToHue.ts:152-155 | `hslToXy`: degrees and percentages to fractions, then `hslToRgb` and `rgbToXy`. |
| `HueMapping.ValenceArousalHsl` | src/mapping/emotionToHue.ts:141-146 | After clamping, hue lies in [30, 270], saturation in [50, 100] and lightness in [45, 75]. |
| `HueMapping.ArousalBrightness` | src/mapping/emotionToHue.ts:148 | Brightness `round(30 + 70a)` lies in [30, 100]. |
| `HueMapping.MapValenceArousal` | src/mapping/emotionToHue.ts:141-150 | `mapValenceArousal`: the colour of the clamped inputs and their brightness. `MapValenceArousalBounds`, `ClampedInputs` and `HueEndpoints` state its properties. |
| `HueMapping.MapValenceArousalBounds` | src/mapping/emotionToHue.ts:141-150 | The continuous path gives an xy point in the unit square and a brightness in [30, 100]. |
| `HueMapping.ClampedInputs` | src/mapping/emotionToHue.ts:142-143 | Out-of-range valence and arousal behave like the nearest end of their range. |
| `HueMapping.HueEndpoints` | src/mapping/emotionToHue.ts:144 | Valence -1, 0 and 1 give hue 30, 150 and 270. |
| `HueMapping.BlackIsFallback` | src/mapping/emotionToHue.ts:157-159 | Gray with lightness 0 takes the fallback point (0.33, 0.33). |
| `HueMapping.ReplaceFirst` | src/mapping/emotionToHue.ts:100-101 | `replace` with a string pattern and a replacement without `$`. `ReplaceFirstAbsent`, `ReplaceFirstSkip` and `ReplaceFirstAt` state what it does. |
| `HueMapping.ReplaceFirstSkip` | src/mapping/emotionToHue.ts:100-101 | Without a match at the front, the replacement keeps the first character and searches the rest. |
| `HueMapping.ReplaceFirstAbsent` | src/mapping/emotionToHue.ts:100-101 | A string-pattern `replace` leaves a string without the pattern unchanged. |
| `HueMapping.ReplaceFirstAt` | src/mapping/emotionToHue.ts:100-101 | A string-pattern `replace` rewrites only the first occurrence. |
| `HueMapping.ValenceArousalLabel` | src/mapping/emotionToHue.ts:100-101 | The continuous-path label: the group followed by " (valence/arousal)", with the first "neutral (valence/arousal)" replaced. `ValenceArousalLabelQuirk` states its values. |
| `HueMapping.ValenceArousalLabelQuirk` | src/mapping/emotionToHue.ts:100-101 | For every group name the continuous-path label is "valence/arousal" for neutral, otherwise the name followed by " (valence/arousal)". |
| `HueMapping.MapEmotionToHue` | src/mapping/emotionToHue.ts:92-114 | The transition is always 800 ms and the confidence is the dominant emotion's. With both valence and arousal the label follows the quirk above, xy and brightness are `MapValenceArousal` of them, and so, for a positive power law, xy lies in the unit square and brightness in [30, 100]. Otherwise the label is the dominant group and xy and brightness are that group's preset. |
| `HueMapping.PresetExamples` | test/emotionToHue.test.ts:4-16 | joy 0.9 gives label happy, brightness 90 and xy (0.52, 0.42). sad 0.8 gives label sad, brightness 35 and xy (0.16, 0.08). |
| `HueMapping.ValenceArousalExample` | src/mapping/emotionToHue.ts:94-103 | No emotions with valence 1 and arousal 0 give the label "valence/arousal", brightness 30, confidence 0 and hue 270. |
| `HumeDecoder.ErrorReason` | src/hume/client.ts:92 | The error event carries `message`, or "Hume error" when `message` is missing or null. |
| `HumeDecoder.Field` | src/hume/client.ts:96 | `v[key]` for the keys the client reads: the last member of that name of an object, and `undefined` for any other value. |
| `HumeDecoder.ObjectLike` | src/hume/client.ts:102 | A value passes the object test of the skip guard (a truthy value whose `typeof` is "object"; also at 113 and 136) exactly when it is an array or an object, never `null` or a primitive. `EventOfSpec`, `ValidItemsMembers` and `ExtractNumber` state the skips it decides. |
| `HumeDecoder.IsError` | src/hume/client.ts:91 | `parsed.type === "error"`. |
| `HumeDecoder.SkipModel` | src/hume/client.ts:103-106 | The skip guard: a non-empty string model other than "prosody" and "expressive". `ModelFilter` and `EventOfSpec` state its cases. |
| `HumeDecoder.ExtractNumber` | src/hume/client.ts:135-139 | A value is returned exactly when the member is a number, and it is that number. |
| `HumeDecoder.ItemScore` | src/hume/client.ts:113-116 | An item gives its name and score when it is an object with a string `name` and a numeric `score`. |
| `HumeDecoder.ValidItems` | src/hume/client.ts:112-119 | The name/score pairs of the items that give one, in item order. `ValidItemsMembers` states its members. |
| `HumeDecoder.EventOf` | src/hume/client.ts:101-131 | The event one prediction contributes. `EventOfSpec` states when there is one and what it carries. |
| `HumeDecoder.PredictionEvents` | src/hume/client.ts:101-131 | The events of the predictions, in order. `PredictionEventsWellFormed`, `PredictionEventsConcat` and `PredictionEventsOne` state its properties. |
| `HumeDecoder.DecodeMessage` | src/hume/client.ts:83-132 | Malformed text gives no events and a JSON `null` throws. An error message gives exactly one error event. Otherwise the result is exactly `PredictionEvents` of the `predictions` array, in order: at most one well-formed emotion event per prediction. It is none when `predictions` is not an array. |
| `HumeDecoder.PredictionEventsWellFormed` | src/hume/client.ts:101-131 | There are no more events than predictions. Every event has at least one score and unique keys. |
| `HumeDecoder.PredictionEventsConcat` | src/hume/client.ts:101-131 | Predictions contribute their events independently and in prediction order. |
| `HumeDecoder.PredictionEventsOne` | src/hume/client.ts:101-131 | One prediction contributes its own event, or nothing. |
| `HumeDecoder.EventOfSpec` | src/hume/client.ts:101-131 | A prediction yields an event exactly when all of these hold: it is an object; its model is not a non-empty string other than "prosody" and "expressive"; its `emotions` is an array; and some item gives a score. The event carries the assigned scores and numeric valence and arousal. |
| `HumeDecoder.AssignNonEmpty` | src/hume/client.ts:124 | The scores have a key exactly when some item gave a name and a score. |
| `HumeDecoder.ValidItemsMembers` | src/hume/client.ts:112-119 | A name/score pair is kept exactly when some item is an object with that string name and numeric score. |
| `HumeDecoder.ScoresOfItems` | src/hume/client.ts:111-119 | A name is a key of the scores exactly when a valid item carries it. It reads the score of the last such item. |
| `HumeDecoder.SilentMessages` | src/hume/client.ts:84-99 | These give no events: malformed text, a non-array `predictions`, and a bare number. A JSON `null` throws. |
| `HumeDecoder.ErrorMessages` | src/hume/client.ts:91-94 | An error message without `message` carries "Hume error". One with a `message` carries it. |
| `HumeDecoder.ModelFilter` | src/hume/client.ts:103-106 | These models are let through: missing, null, numeric, "", "prosody" and "expressive". "language" is skipped. |
| `HumeDecoder.ValidItemsExample` | src/hume/client.ts:112-119 | A null item and an item with a string score are dropped. |
| `HumeDecoder.DuplicateNameExample` | src/hume/client.ts:117 | A later "joy" overwrites the earlier one in place, giving `[joy: 0.7, sad: 0.4]`. |
| `HumeDecoder.ReconnectDelay` | src/hume/client.ts:74 | The delay lies in [1000, 15000]. It is either the cap or `1000 * 2^attempts`. |
| `HumeDecoder.DelayMonotone` | src/hume/client.ts:74 | The delay never decreases as attempts grow. |
| `HumeDecoder.DelayCapped` | src/hume/client.ts:74 | From attempt 4 on, the delay is 15000. |
| `HumeDecoder.DelaySchedule` | src/hume/client.ts:74 | Attempts 0 to 3 wait 1000, 2000, 4000 and 8000 ms. |
| `HumeDecoder.HumeClient.constructor` | src/hume/client.ts:23-24 | A new client has no attempts and is not closed. |
| `HumeDecoder.HumeClient.Connect` | src/hume/client.ts:30-31 | Connecting clears the closed flag and leaves the attempts alone. |
| `HumeDecoder.HumeClient.Close` | src/hume/client.ts:68-70 | Closing sets the closed flag. |
| `HumeDecoder.HumeClient.OnOpen` | src/hume/client.ts:39-41 | A successful open resets the attempts to 0. |
| `HumeDecoder.HumeClient.ScheduleReconnect` | src/hume/client.ts:73-75 | The timer delay is `ReconnectDelay` of the attempts before the call, and the count goes up by one. |
| `HumeDecoder.HumeClient.OnClose` | src/hume/client.ts:44-49 | A socket close schedules a reconnect, with its delay and one more attempt, unless the client was closed on purpose. |
| `HumeDecoder.HumeClient.ItemScores` | src/hume/client.ts:111-119 | The items loop builds exactly `Assign` of the valid items. |
| `HumeDecoder.HumeClient.PredictionEvent` | src/hume/client.ts:101-131 | The body of the predictions loop yields exactly the prediction's event. |
| `HumeDecoder.HumeClient.HandleMessage` | src/hume/client.ts:83-132 | The emitted events are exactly `DecodeMessage` of the input, in order. |

## Left out

- Floating point:
  - Numbers are mathematical reals, so NaN, the infinities, the binary rounding of IEEE doubles and `2 ** n` overflowing to Infinity are not modelled.
  - The initial `-Infinity` of `dominantEmotion` is `None` in the loop.
  - An unbounded delay formula gives the same capped result as the overflowing one.
- The sRGB power law `Math.pow((c + 0.055) / 1.055, 2.4)` is the parameter `gamma`. Concrete xy values of the continuous path are not computed. The range lemmas assume only that `gamma` is positive on its branch, as the power law is.
- Key order: `Object.entries` visits integer-like keys first, in numeric order. The model uses plain insertion order for every key.
- `toLowerCase` covers ASCII letters only.
- Timestamps, `now` and `windowMs` are integers (milliseconds). The source accepts any number, so a fractional timestamp is not modelled; the only caller passes no timestamp, so every sample is stamped with the integer `Date.now()`.
- `ReplaceFirst` does not expand the `$` patterns of a `replace` replacement string; the one replacement used, "valence/arousal", has none.
- Property access: `Field` treats only objects as having members. The keys the source reads (`type`, `message`, `predictions`, `model`, `emotions`, `name`, `score`, `valence`, `arousal`) are not index or `length` properties of arrays and strings.
- EmotionScores.Put: records have no prototype. In the source, `totals` (src/mapping/emotionToHue.ts:53) and `scores` (src/hume/client.ts:111) are `{}` literals that inherit from `Object.prototype`. Assigning `"__proto__"` there goes to a setter that ignores a number, so the key is not stored. The model stores it like any other key.
- EmotionScores.ScoreOfRecord: reading a name that `Object.prototype` supplies (`constructor`, `toString`, and so on) gives the inherited function in the source, not `undefined`. So `totals[key] ?? 0` at src/mapping/emotionToHue.ts:61 is not 0 for such a name, and its average becomes NaN. The model reads 0. The same gap carries over to `AggregateKeys`, `AggregateScores` and `DominantEmotion`: the source's `dominantEmotion` skips a NaN score at line 125, and the model does not.
- HumeDecoder.ScoresOfItems: an item named `"__proto__"` is not stored by `scores[name] = score` at src/hume/client.ts:117, so a prediction whose only items have that name emits no event in the source. The model stores and emits it. The same gap carries over to `EventOfSpec`. The upstream emotion vocabulary uses none of these names.
- HumeDecoder.ErrorReason: the `String(...)` conversion of a non-string `message` is not modelled. The event carries the JSON value itself, and the `Error` object wrapping it is not modelled.
- Event delivery: `EventEmitter`'s rule that an `"error"` event with no listener throws is not modelled, nor is any listener code.
- `JSON.parse` is not modelled; the decoder starts from its result. A JSON `null` makes `parsed.type` throw, and this is the outcome `Threw`.
- Socket and timers: `connect`'s URL building and socket creation, `sendAudio`, `close`'s socket shutdown, the `setTimeout` firing of the reconnect and the emission of `"connected"`/`"disconnected"` are WebSocket I/O. Only their effect on `reconnectAttempts` and `isClosed` is modelled.
- `src/hue/client.ts` is not part of this model. It is an HTTPS client whose only logic is a brightness clamp.
- `src/audio/mic.ts` is not part of this model. It is microphone I/O.
- `src/index.ts` is not part of this model. It is environment checks, signals and a timer throttle.
- The comment beside the hue formula (src/mapping/emotionToHue.ts:144) says 30 to 150 degrees. The model follows the arithmetic, which gives 30 to 270.
- Gray (saturation 0) does not always map to (0.33, 0.33). That happens only when every linearised channel is 0, that is for black (`BlackIsFallback`, `ZeroSumOnlyForBlack`). Any other gray goes through the matrix like every other colour.
- A prediction whose `model` is the empty string is not skipped, since `""` is falsy in the guard at src/hume/client.ts:104.
