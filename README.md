# DTMF decoder — a Dafny model

This project models the decision logic of a small DTMF (telephone keypad tone)
decoder written in C. The decoder reads a sound file, cuts the samples into
windows of 200, and estimates for each window the power at the eight DTMF
frequencies with a Goertzel filter bank. It then classifies the window as a
key, as "quiet" or as "no match", and debounces the stream of per-window
results into "Key pressed" lines.

The model covers the parts that are discrete:

- `Keypad` (keypad.dfy): the eight frequency indices, the 4×4 keypad layout
  `1 2 3 a / 4 5 6 b / 7 8 9 c / * 0 # d`, the per-window result `Symbol`
  (`NoMatch` for the C return value 0, `Quiet` for 1, `Key(c)` otherwise), and
  the decoder's if-chain from detection flags to a key (`Lookup`). `Lookup` is
  proved equal to a separate reference definition of the priority rule: the
  lowest flagged row wins, then the lowest flagged column.
- `Classifier` (classifier.dfy): the running maximum, which starts at 0.0, the
  quiet gate at `POWER_THRESHOLD` = 100.0, and the detection flags, set when a
  power exceeds `RANGE` × maximum with `RANGE` = 0.1. It also counts the flags
  and the "Multiple keys pressed." reports. `Classify` is the imperative pass
  with its loops and the `detected` array. `Decode` and `MultipleReports` are
  the functions that specify it.
- `Debounce` (debounce.dfy): the state `(last key emitted, pause found)`. `Step`
  is one window and `Run` is a stream of windows. `Debouncer` is the session
  object whose `Feed` method updates that state in place.
- `Decoder` (decoder.dfy): the main loop. It takes non-overlapping windows at
  offsets 0, 200, 400, … while a whole window fits. It classifies each window,
  feeds the result to the debouncer and collects the printed lines (`Output`).
- `Coefficients` (coefficients.dfy): the integer bin index from which each
  filter coefficient is derived, with C's truncating division and the
  truncating conversion back to `int`.

The filter bank is a parameter `analyze` of the main loop: it takes a window's
samples and returns a `PowerVector` of eight reals.

Where the evident intent and the code disagree, the model follows the code:

- Bin index: the `+ 0.5` is meant to round to the nearest bin, as in the
  usual Goertzel coefficient `2 cos(2π k / N)` with `k` the bin nearest to the
  target frequency. The code divides in integers before adding 0.5, so it
  takes the bin at or below the frequency (see Findings).
- Quiet window before any key: a pause can only matter after a key was
  emitted, but the code sets the pause flag on every quiet window, also
  before the first key. `EarlyPauseUnobservable` proves that this changes no
  output.
- Several rows or columns flagged: a strict DTMF decoder would report no
  match unless exactly one row and one column are on. The code takes the
  lowest flagged row and the lowest flagged column.
- Letter keys: the code returns lower-case `a`–`d`.
- Sample rate: the main loop always passes 8000 Hz to the classifier,
  whatever the file's rate is.

## Model

| member | source | states |
|---|---|---|
| Keypad.KeyAt | dtmf_decoder.c:119-139 | every keypad key is one of the sixteen layout characters and its code is above 1, so it never collides with the sentinels 0 and 1 |
| Keypad.LayoutDistinct | dtmf_decoder.c:119-139 | no character appears twice in the keypad layout |
| Keypad.KeyAtInjective | dtmf_decoder.c:119-139 | the sixteen (row, column) pairs map to sixteen different keys |
| Keypad.KeyRoundTrip | dtmf_decoder.c:119-139 | the position of the key of (row, column) is that (row, column) |
| Keypad.PositionRoundTrip | dtmf_decoder.c:119-139 | a character found on the keypad is the key at its position |
| Keypad.LookupIsPriority | dtmf_decoder.c:119-143 | the if-chain equals the reference rule: lowest flagged row, then lowest flagged column, else no match |
| Keypad.ExactPairDecodes | dtmf_decoder.c:119-139 | exactly one row r and one column c flagged gives the key at (r, c) of the standard layout |
| Keypad.NoFallThrough | dtmf_decoder.c:119-143 | with no row flagged, or no column flagged, the result is no match |
| Keypad.LookupKeyIff | dtmf_decoder.c:119-143 | the chain returns key ch iff ch is the key of the lowest flagged row and the lowest flagged column (both directions) |
| Keypad.Lookup | dtmf_decoder.c:119-143 | defines the decoder's if-chain from the eight detection flags to a symbol; `LookupIsPriority`, `LookupKeyIff`, `NoFallThrough` and `LookupRange` state what it returns |
| Keypad.LookupRange | dtmf_decoder.c:119-143 | the if-chain never returns the quiet code, and every key it returns is a layout character above 1 |
| Classifier.MaxPower | dtmf_decoder.c:78-99 | the running maximum is at least 0.0 and at least every power, and it is 0.0 or one of the powers |
| Classifier.Decode | dtmf_decoder.c:95-143 | defines the symbol of a window: quiet below the threshold, else the priority rule on the detection flags; `Classify` proves the decoder's loops compute it, and `QuietIff`, `AllBelowThresholdIsQuiet` and `DualToneDecodes` state its cases |
| Classifier.MultipleReports | dtmf_decoder.c:106-117 | defines how many "Multiple keys pressed." lines a window prints; `Classify` proves the loop counts them and `MultipleIff` says when there are any |
| Classifier.CountOnIsSize | dtmf_decoder.c:106-117 | the running flag count equals the number of flagged tones |
| Classifier.Classify | dtmf_decoder.c:95-143 | the loops and the if-chain return `Decode(power)`: quiet below the threshold, else the priority rule on the flags; and they print "Multiple keys pressed." once for each flag beyond the second |
| Classifier.QuietIff | dtmf_decoder.c:101-104 | the window is quiet iff the loudest power, floored at 0.0, is below the threshold |
| Classifier.AllBelowThresholdIsQuiet | dtmf_decoder.c:78-104 | if every power is below the threshold the result is quiet, whatever the ratios between powers |
| Classifier.LoudestIsFlagged | dtmf_decoder.c:106-110 | past the threshold the loudest tone is flagged, so at least one flag is set |
| Classifier.MultipleIff | dtmf_decoder.c:106-117 | the "multiple keys" report fires iff the window is loud and more than two tones are flagged |
| Classifier.DualToneDecodes | dtmf_decoder.c:106-139 | a loud window with exactly one row and one column above RANGE × maximum decodes to that pair's key |
| Debounce.Step | dtmf_decoder.c:192-210 | defines one window of the debouncer, its next state and its printed line; `StepKey`, `StepNonKey` and `StepLastKey` state its cases |
| Debounce.StepLastKey | dtmf_decoder.c:192-210 | a window either prints the key that becomes the last key, or prints no key and keeps the last key |
| Debounce.Run | dtmf_decoder.c:186-213 | defines the debouncer over a stream of symbols; `RunConcat`, `HeldKey`, `QuietRun`, `KeyChange` and `LastKeyIsLastEmitted` state its behaviour |
| Debounce.StepKey | dtmf_decoder.c:192-203 | a key is emitted iff it differs from the last emitted key or a pause came since; afterwards it is the last key and the pause is cleared |
| Debounce.StepNonKey | dtmf_decoder.c:204-210 | a quiet window sets the pause flag and keeps the last key; a no-match window prints "No DTMF signal detected" and changes nothing |
| Debounce.RunConcat | dtmf_decoder.c:186-213 | running two streams one after the other is running their concatenation (state and output) |
| Debounce.HeldKey | dtmf_decoder.c:192-203 | n ≥ 1 windows of the same key emit it at most once, and end holding it with no pause |
| Debounce.HeldKeyFromStart | dtmf_decoder.c:183-203 | from the start, a run of identical key windows emits that key exactly once |
| Debounce.QuietRun | dtmf_decoder.c:204-207 | quiet windows print nothing and only set the pause flag |
| Debounce.PauseThenRepeat | dtmf_decoder.c:192-207 | a held key, then quiet windows, then the same key emits that key a second time |
| Debounce.PauseThenRepeatFromStart | dtmf_decoder.c:183-207 | the stream [s, s, quiet, s] emits s twice |
| Debounce.KeyChange | dtmf_decoder.c:192-198 | the stream [s1 × n, s2] with s1 ≠ s2 emits s1 then s2, with no quiet window needed |
| Debounce.LastKeyIsLastEmitted | dtmf_decoder.c:192-210 | the state's last key is always the last key emitted, or the start value if none was emitted |
| Debounce.EarlyPauseUnobservable | dtmf_decoder.c:183-207 | a pause flag set before any key is emitted changes no output |
| Debounce.Debouncer.constructor | dtmf_decoder.c:183-184 | a new session has no last key and no pause |
| Debounce.Debouncer.Feed | dtmf_decoder.c:192-210 | the session's new state and printed line are those of `Step` on its old state |
| Decoder.WindowOffsets | dtmf_decoder.c:180-212 | there are exactly n / 200 window offsets; `WindowsTile` and `WindowsDisjoint` say where they lie |
| Decoder.Results | dtmf_decoder.c:186-212 | there is one classified result per window; `ResultAt` gives the result of window i from the samples at i × 200 |
| Decoder.Session | dtmf_decoder.c:186-212 | defines every line the main loop prints for a stream of window results; `SessionIsRun` relates it to the debouncer and `DecodeBuffer` proves the loop prints it |
| Decoder.WindowsTile | dtmf_decoder.c:180-212 | windows start at 0, each starts where the previous ends, all lie inside the buffer, and they cover all but the trailing n mod 200 samples |
| Decoder.WindowsDisjoint | dtmf_decoder.c:186-212 | no two windows overlap |
| Decoder.SessionIsRun | dtmf_decoder.c:186-212 | leaving out the "multiple keys" lines, the main loop prints exactly what the debouncer prints for the window symbols |
| Decoder.DecodeWindow | dtmf_decoder.c:188-210 | one iteration prints the window's "multiple keys" lines and then the debouncer's line, and moves the session to `Step`'s next state |
| Decoder.DecodeBuffer | dtmf_decoder.c:180-213 | the loop decodes exactly the windows at offsets `i × 200` for i < n / 200, in order, and prints the session's lines |
| Coefficients.BinIndex | dtmf_decoder.c:40 | defines the bin index as the code computes it; `BinIndexIsFloor`, `BinsAt8000` and `TruncatedBinsOneLow` state its value |
| Coefficients.TruncToward0 | dtmf_decoder.c:40 | converting a double to int keeps the integer at most one unit away on the side of zero |
| Coefficients.CDiv | dtmf_decoder.c:40 | C integer division: the remainder a − q·b is smaller than the absolute value of b and has the sign of a, so the quotient rounds toward zero; for non-negative operands it is the floor quotient |
| Coefficients.TruncHalfAbove | dtmf_decoder.c:40 | the result is the double q + 0.5 converted back to int by truncation toward zero (q for q ≥ 0, q + 1 for q < 0) |
| Coefficients.BinIndexIsFloor | dtmf_decoder.c:40 | for a real configuration the bin index is the floor of blocksize × freq / samplerate |
| Coefficients.MakeBins | dtmf_decoder.c:36-44 | the loop gives the bin index of each of the eight target frequencies |
| Coefficients.BinsAt8000 | dtmf_decoder.c:40 | at 8000 Hz with 200-sample windows the bins are 17, 19, 21, 23, 30, 33, 36, 40 |
| Coefficients.TruncatedBinsOneLow | dtmf_decoder.c:40 | for 941, 1477 and 1633 Hz the decoder's bin is one below the nearest bin |
| Coefficients.OtherBinsAgree | dtmf_decoder.c:40 | for the other five frequencies the decoder's bin is the nearest one |
| Coefficients.NearestBin | dtmf_decoder.c:40 | defines the corrected bin index; `NearestBinIsNearest` states it is the nearest bin |
| Coefficients.NearestBinIsNearest | dtmf_decoder.c:40 | the corrected bin index lies within half a bin of the frequency |

## Findings

| source | as written | input that shows it | evidently intended | confidence | as-written member | corrected member |
|---|---|---|---|---|---|---|
| dtmf_decoder.c:40 | the 0.5 is added after an integer division, so the rounding it was meant for never happens and the bin index is truncated | samplerate 8000, blocksize 200, 941 Hz: 23.525 bins, index 23 (also 1477 Hz → 36, 1633 Hz → 40) | the nearest bin, 24 (37, 41) | high; not executed | Coefficients.TruncatedBinsOneLow | Coefficients.NearestBinIsNearest |

The rest of the model does not use the bin index, because the cosine
coefficients and the filter bank are not modelled.

## Left out

- The Goertzel filter bank (`DTMF_CalcPower`, dtmf_decoder.c:48-74) and the cosine coefficients (dtmf_decoder.c:41, with the approximate `PI`) are floating-point numerics. The main loop takes the filter bank as the parameter `analyze`.
- Floating point in general: powers are `real`, so there is no rounding and no NaN, and `RANGE` is exactly 0.1.
- Reading the sound file with libsndfile and printing its metadata (dtmf_decoder.c:148-178) are calls into a foreign library. The buffer is a parameter. Like the source, the model chunks the whole interleaved buffer without separating channels.
- `malloc`, `free` and `exit`, and the leak of `power` on early returns, are memory plumbing and do not change any result.
- The text of the printed lines is not modelled, only which line is printed (`Output`).
- The global coefficient table, recomputed on every call (dtmf_decoder.c:86), has no effect on the modelled results.
- The unused locals `last_key_pressed` and `pause_found` of `DTMF_Decode` (dtmf_decoder.c:81-82) and the stray token `re` (dtmf_decoder.c:217) are not modelled.
- The uninitialised `last_key_pressed` (dtmf_decoder.c:183) is modelled as "no key yet", so the first key is always emitted.
- Coefficients.BinIndex: does not model 32-bit overflow of `blocksize * freq`, because it needs windows of over a million samples.
- Debounce.Debouncer.Feed: the `DTMF_key > 0` test on a signed `char` is modelled on `Symbol`. The classifier only returns 0, 1 or a keypad character, whose code is above 1.
