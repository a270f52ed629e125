# vibe — a Dafny model of the audio-visualizer core

`vibe` is a terminal audio visualizer in the making. Its source defines four
components:

- an audio capture that records the system's output audio (loopback) into a
  trailing buffer of mono samples;
- an analyzer that turns a 2048-sample window into 64 logarithmically spaced
  frequency bands, normalises them per frame, and smooths them over time with
  a fast attack and a slow decay;
- a band palette;
- a widget that draws 64 bands as a radial burst of shade characters, with one
  coloured spoke per band.

The binary itself only exercises the capture (see "## Left out").

This project models that core in Dafny 4.11 and proves its properties. It has
one module per source file:

- `Sums` (`sums.dfy`): the left-to-right sum of reals. Both the band averaging
  and the channel downmix use it.
- `Analysis` (`analysis.dfy`): `Analyzer::new`, `process` and `band_range`.
  - The analyzer is a class. Its smoothed band set is a 64-element array.
  - `process` is a method proved against the function `Frame`. Its three loops
    are written out: grouping into bands, normalising in place, and smoothing.
  - Lemmas prove band non-negativity, normalisation into [0, 1] (the loudest
    band becomes 1), convex smoothing, the attack/decay asymmetry, the 0.85
    decay on silence, and idempotence on short input. The results also hold
    over whole sequences of calls (`Run`).
- `Audio` (`audio.dfy`):
  - the capture buffer as a class with a `seq` field;
  - the stream callback, which downmixes interleaved frames with
    `chunks(channels)`, appends, and trims once when the buffer holds more
    than 4·2048 samples;
  - `get_samples`;
  - the loopback-device rule and the sample-format dispatch.

  The buffer is also a value (`Trim`, `Latest`, `Feed`), so that sequences of
  callbacks can be reasoned about.
- `Colors` (`colors.dfy`): the hue, saturation and lightness arithmetic of
  `band_to_color`, and the truncating `as u8` casts.
- `Visualizer` (`visualizer.dfy`):
  - `RadialVisualizer::new` and `intensity_char`;
  - the `render` loop over a two-dimensional cell array, proved against
    `CellAfter`, which is the cell produced by replaying the attempted points
    in order.

The floating-point numerics are parameters of the model. Reals stand for
`f32`. The parameters are:

- the Hann weight, `hann(i)`;
- the FFT followed by `Complex::norm`, `spectrum(x)`, which is assumed never
  negative;
- the truncated logarithmic boundary bin, `edgeBin(k, totalBins)`;
- the per-format sample conversion, `toF32`;
- palette's HSL→sRGB conversion, `toSrgb`;
- the spoke geometry, `plot(band, step)`, which is the rounded cell a step of
  a spoke lands on.

Two consequences of the code are worth stating on their own:

- The callback trims at most once. The buffer stays within 4·2048 samples
  whenever each callback delivers at most 2·2048 (`Audio.FeedBounded`). When
  every callback delivers more, it grows by at least one sample per callback
  (`Audio.LargeCallbacksGrow`).
- The capture device is the first output device whose name can be read and,
  lower-cased, contains "loopback". When there is none, it is the default
  output device (`Audio.FindLoopbackDevice`).

## Model

| member | source | states |
|---|---|---|
| Sums.SumWithin | src/analysis.rs:60 | a sum of n values in [lo, hi] lies in [n·lo, n·hi] |
| Analysis.Analyzer.constructor | src/analysis.rs:13-29 | the window holds one Hann weight per sample (2048 of them); all 64 smoothed bands start at 0 |
| Analysis.Analyzer.Process | src/analysis.rs:32-84 | the new smoothed state and the returned bands are `Frame` of the old state: unchanged below 2048 samples, else smoothed toward the normalised bands of the first 2048 windowed samples |
| Analysis.GroupIntoBands | src/analysis.rs:55-64 | the band-grouping loop fills a fresh array with each band's mean over its bin range, or 0 when the range is empty or runs past the magnitudes |
| Analysis.NormalizeBands | src/analysis.rs:66-72 | the in-place loop divides every band by the frame maximum, and leaves the bands alone when that maximum is 0 |
| Analysis.Analyzer.SmoothToward | src/analysis.rs:74-81 | the smoothing loop sets each band to 0.3·old + 0.7·new on a rise and to 0.85·old + 0.15·new otherwise |
| Analysis.Windowed | src/analysis.rs:38-43 | the windowed buffer pairs sample i with weight i, stops at the shorter of the two or at 2048, and holds 2048 values for a full window |
| Analysis.WindowedIgnoresTail | src/analysis.rs:38-43 | only the first 2048 samples reach the transform |
| Analysis.Magnitudes | src/analysis.rs:49-53 | the first min(len, 1024) bins are kept, unchanged |
| Analysis.BandRange | src/analysis.rs:87-105 | both ends of a band's range are at most total_bins; each end is its boundary bin or total_bins |
| Analysis.BandRangesAdjoin | src/analysis.rs:98-104 | a band's end equals the next band's start |
| Analysis.BandRangesMonotone | src/analysis.rs:98-104 | with ascending boundaries every range is well formed and later bands start and end no earlier |
| Analysis.BandValue | src/analysis.rs:59-63 | for a non-empty range inside the magnitudes the value times the range's width is the range's sum (the mean); for any other range it is 0 |
| Analysis.Bands | src/analysis.rs:56-64 | there are 64 bands, and band k is the mean of the magnitudes over its `band_range`, or 0 when that range is empty or runs past the magnitudes |
| Analysis.BandValueWithin | src/analysis.rs:59-63 | a band's value lies between 0 and any upper bound of the magnitudes |
| Analysis.BandsNonNegative | src/analysis.rs:56-64 | non-negative magnitudes give non-negative bands |
| Analysis.SilentBands | src/analysis.rs:56-64 | all-zero magnitudes give all-zero bands |
| Analysis.FrameMax | src/analysis.rs:67 | the fold of `max` from 0 is at least 0, at least every band, and is either 0 or one of the bands |
| Analysis.Normalize | src/analysis.rs:66-72 | normalising keeps the band count, and a frame whose maximum is 0 is left unchanged |
| Analysis.NormalizeScalesBack | src/analysis.rs:67-71 | with a positive maximum, each normalised band times the maximum is the original band: the division loses nothing |
| Analysis.NormalizeInUnit | src/analysis.rs:66-72 | normalised non-negative bands lie in [0, 1], and when the maximum is positive some band is exactly 1 |
| Analysis.SilentFrameNotNormalized | src/analysis.rs:67-72 | a non-negative frame has maximum 0 exactly when it is all zero, and it is then left unchanged |
| Analysis.SmoothStep | src/analysis.rs:76-80 | the smoothed value lies between the old and the new value |
| Analysis.AttackOutpacesDecay | src/analysis.rs:76-80 | a rise moves the value 70% of the gap and a fall or tie 15%, so an equal jump up moves it further than one down |
| Analysis.Smooth | src/analysis.rs:75-81 | every smoothed band lies between its previous value and the new band value |
| Analysis.SmoothInUnit | src/analysis.rs:75-81 | smoothing values in [0, 1] toward values in [0, 1] stays in [0, 1] |
| Analysis.SmoothSilence | src/analysis.rs:78-79 | zero bands scale every non-negative smoothed value by 0.85 |
| Analysis.RawFrame | src/analysis.rs:37-72 | windowing, transform, grouping and normalisation yield one value per band, 64 in all |
| Analysis.Frame | src/analysis.rs:32-84 | fewer than 2048 samples return the state unchanged; otherwise every band lies between its old smoothed value and the frame's normalised band |
| Analysis.RawFrameInUnit | src/analysis.rs:37-72 | every frame's normalised bands lie in [0, 1] |
| Analysis.FrameInUnit | src/analysis.rs:32-84 | `process` keeps a smoothed state that lies in [0, 1] within [0, 1] |
| Analysis.FrameIgnoresExtraSamples | src/analysis.rs:38-43 | samples past the first 2048 do not change the result of `process` |
| Analysis.SilentFrameDecays | src/analysis.rs:56-81 | a full window whose spectrum is all zero scales every band of a non-negative state by 0.85 |
| Analysis.Run | src/analysis.rs:32-84 | calling `process` on each input in turn keeps a state of 64 bands |
| Analysis.RunInUnit | src/analysis.rs:32-84 | across any sequence of calls the smoothed state stays in [0, 1] |
| Analysis.ShortInputsKeepState | src/analysis.rs:33-35 | any number of calls with fewer than 2048 samples leave the state, and so the output, unchanged |
| Analysis.Decayed | src/analysis.rs:79 | k silent decays of a non-negative value stay in [0, value] |
| Analysis.SilentRunDecays | src/analysis.rs:74-81 | after k silent frames every band equals its old value scaled by 0.85 k times |
| Audio.AudioCapture.constructor | src/audio.rs:21 | the sample buffer starts empty |
| Audio.AudioCapture.OnInput | src/audio.rs:69-83 | the callback's new buffer is the old one plus the downmixed samples, trimmed once by 2·2048 when longer than 4·2048 |
| Audio.ChunksRejoin | src/audio.rs:73 | the frames of `chunks(channels)` concatenate back to the input; each holds 1 to `channels` samples, and all but the last hold exactly `channels` |
| Audio.ChunkCount | src/audio.rs:73 | `chunks(channels)` yields ⌈len / channels⌉ frames |
| Audio.ChunkAt | src/audio.rs:73 | frame k is exactly the slice [k·channels, min((k+1)·channels, len)) of the input |
| Audio.Converted | src/audio.rs:74 | the frame's samples converted one by one, in order, by `f32::from_sample` |
| Audio.Mono | src/audio.rs:74-75 | the mono sample times the channel count is the sum of the frame's converted samples |
| Audio.MonoWithin | src/audio.rs:74-75 | a full frame whose converted samples lie in [lo, hi] gives a mono sample in [lo, hi] |
| Audio.Downmix | src/audio.rs:73-77 | the callback appends ⌈len / channels⌉ mono samples |
| Audio.DownmixAt | src/audio.rs:73-77 | a callback appends ⌈len / channels⌉ samples, the k-th being frame k's converted sum divided by the channel count |
| Audio.Trim | src/audio.rs:80-82 | above 4·2048 samples the buffer loses exactly its first 2·2048, otherwise nothing; the result is a suffix |
| Audio.Latest | src/audio.rs:94-98 | the window is the last min(len, 2048) samples of the buffer |
| Audio.TrimKeepsLatest | src/audio.rs:80-98 | trimming never changes the window `get_samples` returns |
| Audio.Feed | src/audio.rs:69-83 | after any sequence of callbacks the buffer is a suffix of the old buffer followed by everything appended, in order |
| Audio.FeedBeforeHighWater | src/audio.rs:69-83 | until 4·2048 samples have arrived the buffer is exactly everything appended, oldest first |
| Audio.ShortUntilWindowFull | src/audio.rs:92-98 | starting empty, the window is everything appended, shorter than 2048, until 2048 samples have arrived |
| Audio.FeedBounded | src/audio.rs:80-82 | with at most 2·2048 samples per callback the buffer never exceeds 4·2048 |
| Audio.LargeCallbacksGrow | src/audio.rs:80-82 | with more than 2·2048 samples per callback the buffer grows by at least one sample per callback |
| Audio.CallbackWindow | src/audio.rs:69-98 | after a callback the window is that of old buffer plus new samples, and the last 2048 new samples when at least 2048 arrived |
| Audio.AudioCapture.GetSamples | src/audio.rs:92-99 | returns the last min(len, 2048) samples of the buffer, in order, and changes nothing |
| Audio.ToLower | src/audio.rs:45 | the lower-cased name has the same length; each ASCII capital becomes its small letter, no capital remains, and every other character is unchanged |
| Audio.Contains | src/audio.rs:45 | a match implies the pattern fits in the string, and a string that starts with the pattern contains it |
| Audio.ContainsIff | src/audio.rs:45 | `contains` holds exactly when the pattern occurs at some position |
| Audio.IsLoopback | src/audio.rs:42-45 | a device qualifies exactly when its name can be read and "loopback" occurs in the lower-cased name |
| Audio.FindLoopbackDevice | src/audio.rs:39-54 | a failed enumeration is passed on; otherwise the first device whose readable, lower-cased name contains "loopback" (none before it qualifies), else the default device, else the "No output device found" error |
| Audio.StreamFormat | src/audio.rs:24-29 | F32, I16 and U16 are accepted as themselves; every other format is the "Unsupported sample format" error |
| Colors.Clamp | src/colors.rs:8 | the clamped value lies in [lo, hi] and equals the input inside it |
| Colors.Hue | src/colors.rs:6 | the hue is non-negative and below 300 for bands 0..63 |
| Colors.Lightness | src/colors.rs:8 | the lightness lies in [0.3, 0.7] |
| Colors.BandHsl | src/colors.rs:5-10 | saturation is always 0.9, lightness in [0.3, 0.7], hue in [0, 300) for bands below 64 |
| Colors.ChannelByte | src/colors.rs:14-16 | the byte is at most 255, and for a channel in [0, 1] it is the truncation of 255·channel |
| Colors.BandToColor | src/colors.rs:5-18 | each of the three channels is a byte value |
| Colors.HueIncreasing | src/colors.rs:6 | band 0 has hue 0 and the hue strictly increases with the band |
| Colors.LightnessIncreasing | src/colors.rs:8 | lightness strictly increases with intensity on [0, 1] |
| Colors.ColorUsesClampedIntensity | src/colors.rs:8 | intensities below 0 give the colour of 0, above 1 that of 1; only the clamped intensity matters |
| Visualizer.NewVisualizer | src/visualizer.rs:15-17 | the widget holds exactly the 64 given bands |
| Visualizer.ToUsize | src/visualizer.rs:42 | the `as usize` cast is 0 for non-positive values and otherwise the truncation |
| Visualizer.IntensityChar | src/visualizer.rs:62-69 | intensities below 0.25 give ░, [0.25, 0.5) ▒, [0.5, 0.75) ▓, 0.75 and above █ |
| Visualizer.IntensityCharMonotone | src/visualizer.rs:62-69 | a larger intensity never gives a lighter shade |
| Visualizer.IntensityCharSamples | src/visualizer.rs:77-81 | 0 gives ░, 0.5 gives ▓, 1 gives █ |
| Visualizer.InArea | src/visualizer.rs:51 | a point inside the area has non-negative coordinates, and the area is non-empty |
| Visualizer.MaxRadius | src/visualizer.rs:27-30 | the radius is non-negative, at most 90% of half the width and at most 90% of twice half the height |
| Visualizer.SpokeLength | src/visualizer.rs:36 | for an intensity in [0, 1] the spoke is between 20% and 100% of the maximum radius |
| Visualizer.SpokeSteps | src/visualizer.rs:27-42 | a spoke of length below 1 attempts exactly 1 point; a longer one attempts trunc(length) points, where the length is 20% to 100% of 0.9·min(width/2, 2·(height/2)) |
| Visualizer.Strokes | src/visualizer.rs:33-43 | the first n bands attempt at least n points; every point belongs to one of those bands and its step is below that band's step count |
| Visualizer.StrokesOrdered | src/visualizer.rs:33-43 | the attempted points strictly increase in (band, step) order, so bands come in order, steps go outward, and no point repeats |
| Visualizer.StrokesCover | src/visualizer.rs:33-43 | every step below its band's step count, for each of the first n bands, is attempted |
| Visualizer.Spoke | src/visualizer.rs:42-43 | a band's spoke attempts `SpokeSteps` points, at least one, the s-th being step s of that band |
| Visualizer.Painted | src/visualizer.rs:52-54 | a write sets the symbol to the shade of the intensity and the foreground to an RGB colour with byte channels, and keeps the background |
| Visualizer.CellAfter | src/visualizer.rs:43-55 | drawing points keeps a cell's background, and the cell is either unchanged or shows a shade in an RGB foreground |
| Visualizer.CellUnchangedUnlessHit | src/visualizer.rs:51-55 | a cell hit by no point inside the area, in particular any cell outside the area, is unchanged; no background changes |
| Visualizer.LastHitWins | src/visualizer.rs:52-54 | a hit cell shows the shade and the colour of the last band drawn on it |
| Visualizer.CellAfterSnoc | src/visualizer.rs:51-55 | one more point changes only the cell it hits, and only inside the area |
| Visualizer.CellAfterAppend | src/visualizer.rs:33-57 | drawing two runs of points one after the other equals drawing their concatenation |
| Visualizer.DrawPoint | src/visualizer.rs:51-55 | the write changes only the hit cell's symbol and foreground, and only inside the area |
| Visualizer.DrawSpoke | src/visualizer.rs:35-56 | drawing one spoke leaves every cell as `CellAfter` of that band's points |
| Visualizer.Render | src/visualizer.rs:21-58 | every cell of the grid ends as `CellAfter` of all 64 spokes' points drawn in order |

## Left out

- The cpal host, stream construction, `stream.play`, the error callback and its `eprintln`, and the stream's lifetime are not modelled. These are src/audio.rs:14-37 and 56-89 apart from the callback body and the format dispatch. They are I/O against a foreign library.
- The `Arc<Mutex<…>>` sharing between the audio thread and the reader is not modelled. Each method of `AudioCapture` stands for one critical section; the threading is outside Dafny's sequential model.
- `f32::from_sample` is the parameter `toF32`, and the rustfft transform and `Complex::norm` are the parameter `spectrum`. Both are foreign numeric code.
- The Hann cosine is the parameter `hann`, and the `ln`/`exp` boundary computation of `band_range` is the parameter `edgeBin`. Transcendental functions are not available.
- f32 rounding, overflow to infinity and NaN are not modelled, including `f32::max` and `clamp` on NaN. Reals stand for f32.
- Analysis.BandRangesMonotone: assumes, rather than proves, that the boundary bins ascend. This holds of the exponential spacing, but the spacing itself is opaque.
- The sine-wave test and the numeric band-range test (src/analysis.rs:129-150) are not modelled. They depend on the concrete FFT and logarithms.
- Render's trigonometry, its `round` and its `as u16` casts are the parameter `plot`. Its centre point and the ratatui `Buffer`, `Style` and `Color` types are reduced to a cell array with symbol, foreground and background.
- Visualizer.Render: requires the area to lie within the cell array. The source's `cell_mut(..).unwrap()` panics otherwise.
- Visualizer.ToUsize: does not saturate at `usize::MAX`. Spoke lengths are far below it.
- palette's HSL→sRGB conversion (src/colors.rs:10-11) is the parameter `toSrgb`. The colour tests at src/colors.rs:24-46 depend on that conversion and are not modelled.
- Audio.ToLower: lower-cases ASCII letters only, whereas `str::to_lowercase` is Unicode-aware. The match against the ASCII pattern "loopback" is the same for ASCII names.
- Audio.AudioCapture.OnInput: requires a non-zero channel count, because `chunks(0)` panics.
- Audio.StreamFormat: models only the ten numeric formats, although cpal's `SampleFormat` is non-exhaustive. Any further variant falls into the same error arm.
- src/main.rs is not modelled. It prints a start banner, builds an `AudioCapture`, sleeps 500 ms once, calls `get_samples` and prints the sample count, or prints the initialisation error. It is console I/O and a clock. It declares only the `analysis`, `audio` and `colors` modules, so src/visualizer.rs is not compiled into the binary; the model covers it as written.
