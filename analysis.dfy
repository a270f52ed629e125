/** The spectrum analyzer: turns one analysis window of mono samples into 64
    band intensities and keeps an asymmetrically smoothed copy of them across
    calls.

    The floating-point numerics are not modelled; they enter as values fixed at
    construction:
    - `hann(i)`: the Hann weight 0.5·(1 − cos(2πi/N)) of sample i;
    - `spectrum(x)`: the planned forward FFT of `x` followed by `Complex::norm`
      of every output bin (a modulus, so never negative);
    - `edgeBin(k, totalBins)`: the bin index of the k-th logarithmic band
      boundary, i.e. `exp(ln 20 + k/64·(ln 16000 − ln 20)) / (44100 / (2·totalBins))`
      truncated to `usize`. Band b starts at boundary b and ends at boundary b+1.
    Reals stand for `f32`: rounding and NaN are not modelled. */
module Analysis {
  import opened Sums

  /** Samples per analysis window (and FFT length). */
  const SampleSize: nat := 2048
  /** Number of output bands. */
  const NumBands: nat := 64
  /** Bins below the Nyquist frequency: the half of the transform that is used. */
  const TotalBins: nat := SampleSize / 2

  function Min(a: nat, b: nat): nat
  {
    if a <= b then a else b
  }

  /** `f32::max`, NaN aside. */
  function MaxReal(a: real, b: real): real
  {
    if a >= b then a else b
  }

  predicate NonNegative(s: seq<real>)
  {
    forall i :: 0 <= i < |s| ==> 0.0 <= s[i]
  }

  predicate InUnit(s: seq<real>)
  {
    AllWithin(s, 0.0, 1.0)
  }

  /** The transform's moduli are never negative, whatever its input. */
  ghost predicate NonNegativeSpectrum(spectrum: seq<real> -> seq<real>)
  {
    forall x: seq<real> :: NonNegative(spectrum(x))
  }

  // ---------------------------------------------------------------------------
  // The per-frame pipeline, as functions

  /** The windowed input of the transform: the samples zipped with the window,
      taking at most SampleSize of them. */
  function Windowed(samples: seq<real>, window: seq<real>): (w: seq<real>)
    ensures |w| == Min(Min(|samples|, SampleSize), |window|)
    ensures |samples| >= SampleSize && |window| == SampleSize ==> |w| == SampleSize
    ensures forall i :: 0 <= i < |w| ==> w[i] == samples[i] * window[i]
  {
    var n := Min(Min(|samples|, SampleSize), |window|);
    seq(n, i requires 0 <= i < n => samples[i] * window[i])
  }

  /** Samples past the first SampleSize never reach the transform. */
  lemma WindowedIgnoresTail(samples: seq<real>, window: seq<real>)
    requires |samples| >= SampleSize
    ensures Windowed(samples, window) == Windowed(samples[..SampleSize], window)
  {
    var a, b := Windowed(samples, window), Windowed(samples[..SampleSize], window);
    assert |a| == |b|;
    forall i | 0 <= i < |a| ensures a[i] == b[i] {
      assert samples[..SampleSize][i] == samples[i];
    }
  }

  /** The moduli kept from the transform: the first TotalBins of them. */
  function Magnitudes(bins: seq<real>): (m: seq<real>)
    ensures |m| == Min(|bins|, TotalBins)
    ensures forall i :: 0 <= i < |m| ==> m[i] == bins[i]
  {
    bins[..Min(|bins|, TotalBins)]
  }

  /** `band_range`: the bin range [start, end) of `band`, each end clamped to `totalBins`. */
  function BandRange(band: nat, totalBins: nat, edgeBin: (nat, nat) -> nat): (r: (nat, nat))
    ensures r.0 <= totalBins && r.1 <= totalBins
    ensures r.0 == edgeBin(band, totalBins) || r.0 == totalBins
    ensures r.1 == edgeBin(band + 1, totalBins) || r.1 == totalBins
  {
    (Min(edgeBin(band, totalBins), totalBins), Min(edgeBin(band + 1, totalBins), totalBins))
  }

  /** Consecutive bands share a boundary: no bin falls between two bands. */
  lemma BandRangesAdjoin(band: nat, totalBins: nat, edgeBin: (nat, nat) -> nat)
    ensures BandRange(band, totalBins, edgeBin).1 == BandRange(band + 1, totalBins, edgeBin).0
  {
  }

  /** The boundary bins do not decrease from one boundary to the next (true of
      the exponential spacing; stated as a hypothesis since the log math is opaque). */
  ghost predicate EdgesAscending(edgeBin: (nat, nat) -> nat, totalBins: nat)
  {
    forall k: nat :: edgeBin(k, totalBins) <= edgeBin(k + 1, totalBins)
  }

  /** With ascending boundaries the band ranges are ordered: each range is
      well formed and later bands start and end no earlier than earlier ones. */
  lemma {:induction false} BandRangesMonotone(b1: nat, b2: nat, totalBins: nat, edgeBin: (nat, nat) -> nat)
    requires EdgesAscending(edgeBin, totalBins)
    requires b1 <= b2
    ensures BandRange(b1, totalBins, edgeBin).0 <= BandRange(b1, totalBins, edgeBin).1
    ensures BandRange(b1, totalBins, edgeBin).0 <= BandRange(b2, totalBins, edgeBin).0
    ensures BandRange(b1, totalBins, edgeBin).1 <= BandRange(b2, totalBins, edgeBin).1
    decreases b2 - b1
  {
    assert edgeBin(b1, totalBins) <= edgeBin(b1 + 1, totalBins);
    if b1 < b2 {
      BandRangesMonotone(b1 + 1, b2, totalBins, edgeBin);
      assert edgeBin(b1 + 1, totalBins) <= edgeBin(b1 + 2, totalBins);
    }
  }

  /** Dividing a value in [n·lo, n·hi] by n > 0 gives a value in [lo, hi]. */
  lemma QuotientWithin(a: real, n: real, lo: real, hi: real)
    requires n > 0.0 && n * lo <= a <= n * hi
    ensures lo <= a / n <= hi
  {
    var q := a / n;
    assert a == q * n;
  }

  /** A band's value: the mean of the magnitudes in its range, or 0 when the
      range is empty or runs past the magnitudes. */
  function BandValue(magnitudes: seq<real>, range: (nat, nat)): (v: real)
    ensures range.0 < range.1 <= |magnitudes| ==>
      v * (range.1 - range.0) as real == Sum(magnitudes[range.0..range.1])
    ensures !(range.0 < range.1 <= |magnitudes|) ==> v == 0.0
  {
    var (start, end) := range;
    if start < end && end <= |magnitudes| then
      Sum(magnitudes[start..end]) / (end - start) as real
    else
      0.0
  }

  /** A band's value lies within the bounds of the magnitudes: never negative,
      never above the largest magnitude. */
  lemma BandValueWithin(magnitudes: seq<real>, range: (nat, nat), hi: real)
    requires 0.0 <= hi && AllWithin(magnitudes, 0.0, hi)
    ensures 0.0 <= BandValue(magnitudes, range) <= hi
  {
    var (start, end) := range;
    if start < end && end <= |magnitudes| {
      var part := magnitudes[start..end];
      assert AllWithin(part, 0.0, hi) by {
        forall i | 0 <= i < |part| ensures 0.0 <= part[i] <= hi {
          assert part[i] == magnitudes[start + i];
        }
      }
      SumWithin(part, 0.0, hi);
      var n := (end - start) as real;
      assert |part| as real == n;
      QuotientWithin(Sum(part), n, 0.0, hi);
      assert BandValue(magnitudes, range) == Sum(part) / n;
    }
  }

  /** The raw (unnormalised) value of every band. */
  function Bands(magnitudes: seq<real>, edgeBin: (nat, nat) -> nat): (b: seq<real>)
    ensures |b| == NumBands
    ensures forall band :: 0 <= band < NumBands ==>
      (BandRange(band, TotalBins, edgeBin).0 < BandRange(band, TotalBins, edgeBin).1 <= |magnitudes| ==>
         b[band] * (BandRange(band, TotalBins, edgeBin).1 - BandRange(band, TotalBins, edgeBin).0) as real
           == Sum(magnitudes[BandRange(band, TotalBins, edgeBin).0..BandRange(band, TotalBins, edgeBin).1])) &&
      (!(BandRange(band, TotalBins, edgeBin).0 < BandRange(band, TotalBins, edgeBin).1 <= |magnitudes|) ==>
         b[band] == 0.0)
  {
    seq(NumBands, band requires 0 <= band < NumBands => BandValue(magnitudes, BandRange(band, TotalBins, edgeBin)))
  }

  /** Magnitudes that are never negative give bands that are never negative. */
  lemma BandsNonNegative(magnitudes: seq<real>, edgeBin: (nat, nat) -> nat)
    requires NonNegative(magnitudes)
    ensures NonNegative(Bands(magnitudes, edgeBin))
  {
    var hi := FrameMax(magnitudes);
    forall band | 0 <= band < NumBands
      ensures 0.0 <= Bands(magnitudes, edgeBin)[band]
    {
      BandValueWithin(magnitudes, BandRange(band, TotalBins, edgeBin), hi);
    }
  }

  /** Silent magnitudes give silent bands. */
  lemma SilentBands(magnitudes: seq<real>, edgeBin: (nat, nat) -> nat)
    requires AllWithin(magnitudes, 0.0, 0.0)
    ensures AllWithin(Bands(magnitudes, edgeBin), 0.0, 0.0)
  {
    forall band | 0 <= band < NumBands
      ensures Bands(magnitudes, edgeBin)[band] == 0.0
    {
      BandValueWithin(magnitudes, BandRange(band, TotalBins, edgeBin), 0.0);
    }
  }

  /** The frame maximum, `fold(0.0, f32::max)`: at least 0, at least every
      value, and either 0 or one of the values. */
  function FrameMax(values: seq<real>): (m: real)
    ensures 0.0 <= m
    ensures forall i :: 0 <= i < |values| ==> values[i] <= m
    ensures m == 0.0 || exists i :: 0 <= i < |values| && values[i] == m
  {
    if |values| == 0 then 0.0
    else MaxReal(FrameMax(values[..|values| - 1]), values[|values| - 1])
  }

  /** Multiplying a quotient by its non-zero divisor gives back the dividend. */
  lemma DivCancels(a: real, m: real, q: real)
    requires m != 0.0 && q == a / m
    ensures q * m == a
  {
  }

  /** Multiplying every element of `scaled` by m gives `values`. */
  predicate ScalesBackTo(scaled: seq<real>, m: real, values: seq<real>)
  {
    |scaled| == |values| && forall i :: 0 <= i < |values| ==> scaled[i] * m == values[i]
  }

  /** Values divided elementwise by m > 0 give the originals back when
      multiplied by m. */
  lemma QuotientsScaleBack(values: seq<real>, m: real, quotients: seq<real>)
    requires m > 0.0 && |quotients| == |values|
    requires forall i :: 0 <= i < |quotients| ==> quotients[i] == values[i] / m
    ensures ScalesBackTo(quotients, m, values)
  {
    forall i | 0 <= i < |values| ensures quotients[i] * m == values[i] {
      DivCancels(values[i], m, quotients[i]);
    }
  }

  /** Per-frame normalisation: every band divided by the frame maximum, unless
      that maximum is 0. */
  function Normalize(bands: seq<real>): (r: seq<real>)
    ensures |r| == |bands|
    ensures FrameMax(bands) == 0.0 ==> r == bands
  {
    var m := FrameMax(bands);
    if m > 0.0 then seq(|bands|, i requires 0 <= i < |bands| => bands[i] / m) else bands
  }

  /** Normalisation is undone by scaling back by the frame maximum: no band
      is lost or reordered. */
  lemma NormalizeScalesBack(bands: seq<real>)
    requires FrameMax(bands) > 0.0
    ensures ScalesBackTo(Normalize(bands), FrameMax(bands), bands)
  {
    var m := FrameMax(bands);
    var r := Normalize(bands);
    assert forall i :: 0 <= i < |r| ==> r[i] == bands[i] / m;
    QuotientsScaleBack(bands, m, r);
  }

  /** Normalised non-negative bands lie in [0, 1], and when the frame is not
      silent its loudest band becomes exactly 1. */
  lemma NormalizeInUnit(bands: seq<real>)
    requires NonNegative(bands)
    ensures InUnit(Normalize(bands))
    ensures FrameMax(bands) > 0.0 ==> exists i :: 0 <= i < |bands| && Normalize(bands)[i] == 1.0
  {
    var m := FrameMax(bands);
    if m > 0.0 {
      var r := Normalize(bands);
      forall i | 0 <= i < |bands| ensures 0.0 <= r[i] <= 1.0 {
        assert r[i] == bands[i] / m;
        RatioInUnit(bands[i], m);
      }
      assert InUnit(r);
      var k :| 0 <= k < |bands| && bands[k] == m;
      assert r[k] == bands[k] / m;
      RatioInUnit(bands[k], m);
    }
  }

  /** A ratio a/m with 0 <= a <= m lies in [0, 1], and is 1 when a == m. */
  lemma RatioInUnit(a: real, m: real)
    requires 0.0 <= a <= m && m > 0.0
    ensures 0.0 <= a / m <= 1.0
    ensures a == m ==> a / m == 1.0
  {
    QuotientWithin(a, m, 0.0, 1.0);
  }

  /** A non-negative frame has maximum 0 exactly when it is all zero, and such a
      frame is left as it is. */
  lemma SilentFrameNotNormalized(bands: seq<real>)
    requires NonNegative(bands)
    ensures FrameMax(bands) == 0.0 <==> AllWithin(bands, 0.0, 0.0)
    ensures FrameMax(bands) == 0.0 ==> Normalize(bands) == bands
  {
  }

  /** One band's smoothing step: a rise moves 70% of the way to the new value
      (fast attack), a fall or no change 15% (slow decay). The result is a
      convex combination, so it lies between the old and the new value. */
  function SmoothStep(previous: real, band: real): (r: real)
    ensures previous <= band ==> previous <= r <= band
    ensures band <= previous ==> band <= r <= previous
  {
    if band > previous then previous * 0.3 + band * 0.7
    else previous * 0.85 + band * 0.15
  }

  /** The asymmetry, stated on the gap: a rise covers 70% of it, a fall or a
      tie 15%, so an upward jump moves the output more than an equal downward one. */
  lemma AttackOutpacesDecay(previous: real, band: real, gap: real)
    requires gap > 0.0
    ensures band > previous ==> SmoothStep(previous, band) - previous == 0.7 * (band - previous)
    ensures band <= previous ==> SmoothStep(previous, band) - previous == 0.15 * (band - previous)
    ensures SmoothStep(previous, previous + gap) - previous > previous - SmoothStep(previous, previous - gap)
  {
  }

  /** Smoothing of the whole band set, band by band. */
  function Smooth(previous: seq<real>, bands: seq<real>): (r: seq<real>)
    requires |previous| == |bands|
    ensures |r| == |previous|
    ensures forall i :: 0 <= i < |r| ==>
      (previous[i] <= bands[i] ==> previous[i] <= r[i] <= bands[i]) &&
      (bands[i] <= previous[i] ==> bands[i] <= r[i] <= previous[i])
  {
    seq(|previous|, i requires 0 <= i < |previous| => SmoothStep(previous[i], bands[i]))
  }

  /** Smoothing two band sets in [0, 1] stays in [0, 1]. */
  lemma SmoothInUnit(previous: seq<real>, bands: seq<real>)
    requires |previous| == |bands|
    requires InUnit(previous) && InUnit(bands)
    ensures InUnit(Smooth(previous, bands))
  {
    var r := Smooth(previous, bands);
    forall i | 0 <= i < |r| ensures 0.0 <= r[i] <= 1.0 {
      assert r[i] == SmoothStep(previous[i], bands[i]);
    }
  }

  /** A frame whose bands are all 0 scales every smoothed value by 0.85. */
  lemma SmoothSilence(previous: seq<real>, bands: seq<real>)
    requires |previous| == |bands|
    requires NonNegative(previous)
    requires AllWithin(bands, 0.0, 0.0)
    ensures forall i :: 0 <= i < |previous| ==> Smooth(previous, bands)[i] == 0.85 * previous[i]
  {
    forall i | 0 <= i < |previous| ensures Smooth(previous, bands)[i] == 0.85 * previous[i] {
      assert bands[i] == 0.0;
    }
  }

  /** The normalised bands of a full window. */
  function RawFrame(samples: seq<real>, window: seq<real>, spectrum: seq<real> -> seq<real>,
                    edgeBin: (nat, nat) -> nat): (r: seq<real>)
    ensures |r| == NumBands
  {
    Normalize(Bands(Magnitudes(spectrum(Windowed(samples, window))), edgeBin))
  }

  /** `process`, as a function of the smoothed state before the call: a short
      input leaves it as it is; a full window smooths it toward the frame's
      normalised bands. */
  function Frame(smoothed: seq<real>, samples: seq<real>, window: seq<real>,
                 spectrum: seq<real> -> seq<real>, edgeBin: (nat, nat) -> nat): (r: seq<real>)
    requires |smoothed| == NumBands
    ensures |r| == NumBands
    ensures |samples| < SampleSize ==> r == smoothed
    ensures |samples| >= SampleSize ==> forall i :: 0 <= i < NumBands ==>
      var band := RawFrame(samples, window, spectrum, edgeBin)[i];
      (smoothed[i] <= band ==> smoothed[i] <= r[i] <= band) &&
      (band <= smoothed[i] ==> band <= r[i] <= smoothed[i])
  {
    if |samples| < SampleSize then smoothed
    else Smooth(smoothed, RawFrame(samples, window, spectrum, edgeBin))
  }

  /** Normalised bands of any frame lie in [0, 1]. */
  lemma RawFrameInUnit(samples: seq<real>, window: seq<real>, spectrum: seq<real> -> seq<real>,
                       edgeBin: (nat, nat) -> nat)
    requires NonNegativeSpectrum(spectrum)
    ensures InUnit(RawFrame(samples, window, spectrum, edgeBin))
  {
    var bins := spectrum(Windowed(samples, window));
    assert NonNegative(bins);
    BandsNonNegative(Magnitudes(bins), edgeBin);
    NormalizeInUnit(Bands(Magnitudes(bins), edgeBin));
  }

  /** Every new smoothed value lies between the old one and the frame's
      normalised band, and so the state stays in [0, 1]. */
  lemma FrameInUnit(smoothed: seq<real>, samples: seq<real>, window: seq<real>,
                    spectrum: seq<real> -> seq<real>, edgeBin: (nat, nat) -> nat)
    requires |smoothed| == NumBands && InUnit(smoothed)
    requires NonNegativeSpectrum(spectrum)
    ensures InUnit(Frame(smoothed, samples, window, spectrum, edgeBin))
  {
    if |samples| >= SampleSize {
      RawFrameInUnit(samples, window, spectrum, edgeBin);
      SmoothInUnit(smoothed, RawFrame(samples, window, spectrum, edgeBin));
    }
  }

  /** Input beyond the first SampleSize samples cannot affect the result. */
  lemma FrameIgnoresExtraSamples(smoothed: seq<real>, samples: seq<real>, window: seq<real>,
                                 spectrum: seq<real> -> seq<real>, edgeBin: (nat, nat) -> nat)
    requires |smoothed| == NumBands
    requires |samples| >= SampleSize
    ensures Frame(smoothed, samples, window, spectrum, edgeBin)
         == Frame(smoothed, samples[..SampleSize], window, spectrum, edgeBin)
  {
    WindowedIgnoresTail(samples, window);
  }

  /** A full window whose transform is silent scales every smoothed value by 0.85. */
  lemma SilentFrameDecays(smoothed: seq<real>, samples: seq<real>, window: seq<real>,
                          spectrum: seq<real> -> seq<real>, edgeBin: (nat, nat) -> nat)
    requires |smoothed| == NumBands
    requires NonNegative(smoothed)
    requires |samples| >= SampleSize
    requires AllWithin(spectrum(Windowed(samples, window)), 0.0, 0.0)
    ensures forall i :: 0 <= i < NumBands ==>
      Frame(smoothed, samples, window, spectrum, edgeBin)[i] == 0.85 * smoothed[i]
  {
    var magnitudes := Magnitudes(spectrum(Windowed(samples, window)));
    SilentBands(magnitudes, edgeBin);
    var bands := Bands(magnitudes, edgeBin);
    SilentFrameNotNormalized(bands);
    SmoothSilence(smoothed, bands);
  }

  // ---------------------------------------------------------------------------
  // Sequences of calls

  /** The smoothed state after `process` has been called on each input in turn. */
  function Run(smoothed: seq<real>, inputs: seq<seq<real>>, window: seq<real>,
               spectrum: seq<real> -> seq<real>, edgeBin: (nat, nat) -> nat): (r: seq<real>)
    requires |smoothed| == NumBands
    ensures |r| == NumBands
  {
    if |inputs| == 0 then smoothed
    else Frame(Run(smoothed, inputs[..|inputs| - 1], window, spectrum, edgeBin),
               inputs[|inputs| - 1], window, spectrum, edgeBin)
  }

  /** Across any sequence of calls, every smoothed value stays in [0, 1]. */
  lemma {:induction false} RunInUnit(smoothed: seq<real>, inputs: seq<seq<real>>, window: seq<real>,
                                     spectrum: seq<real> -> seq<real>, edgeBin: (nat, nat) -> nat)
    requires |smoothed| == NumBands && InUnit(smoothed)
    requires NonNegativeSpectrum(spectrum)
    ensures InUnit(Run(smoothed, inputs, window, spectrum, edgeBin))
  {
    if |inputs| > 0 {
      RunInUnit(smoothed, inputs[..|inputs| - 1], window, spectrum, edgeBin);
      FrameInUnit(Run(smoothed, inputs[..|inputs| - 1], window, spectrum, edgeBin),
                  inputs[|inputs| - 1], window, spectrum, edgeBin);
    }
  }

  /** Calls with fewer than SampleSize samples never change the state, however
      many of them there are: repeated short calls give identical output. */
  lemma {:induction false} ShortInputsKeepState(smoothed: seq<real>, inputs: seq<seq<real>>, window: seq<real>,
                                                spectrum: seq<real> -> seq<real>, edgeBin: (nat, nat) -> nat)
    requires |smoothed| == NumBands
    requires forall k :: 0 <= k < |inputs| ==> |inputs[k]| < SampleSize
    ensures Run(smoothed, inputs, window, spectrum, edgeBin) == smoothed
  {
    if |inputs| > 0 {
      ShortInputsKeepState(smoothed, inputs[..|inputs| - 1], window, spectrum, edgeBin);
    }
  }

  /** `x` after k silent frames: scaled by 0.85, k times over. Never negative
      and never above `x` when `x` is not negative. */
  function Decayed(x: real, k: nat): (r: real)
    ensures 0.0 <= x ==> 0.0 <= r <= x
  {
    if k == 0 then x else 0.85 * Decayed(x, k - 1)
  }

  /** A full window whose transform is silent. */
  ghost predicate SilentInput(samples: seq<real>, window: seq<real>, spectrum: seq<real> -> seq<real>)
  {
    |samples| >= SampleSize && AllWithin(spectrum(Windowed(samples, window)), 0.0, 0.0)
  }

  /** After k silent frames every smoothed value has been scaled by 0.85 k
      times: it never grows and decays toward 0. */
  lemma {:induction false} SilentRunDecays(smoothed: seq<real>, inputs: seq<seq<real>>, window: seq<real>,
                                           spectrum: seq<real> -> seq<real>, edgeBin: (nat, nat) -> nat)
    requires |smoothed| == NumBands && NonNegative(smoothed)
    requires forall k :: 0 <= k < |inputs| ==> SilentInput(inputs[k], window, spectrum)
    ensures forall i :: 0 <= i < NumBands ==>
      Run(smoothed, inputs, window, spectrum, edgeBin)[i] == Decayed(smoothed[i], |inputs|)
  {
    if |inputs| > 0 {
      var init := inputs[..|inputs| - 1];
      SilentRunDecays(smoothed, init, window, spectrum, edgeBin);
      var last := inputs[|inputs| - 1];
      assert SilentInput(last, window, spectrum);
      var before := Run(smoothed, init, window, spectrum, edgeBin);
      assert NonNegative(before) by {
        forall i | 0 <= i < NumBands ensures 0.0 <= before[i] {
          assert before[i] == Decayed(smoothed[i], |init|);
        }
      }
      SilentFrameDecays(before, last, window, spectrum, edgeBin);
    }
  }

  // ---------------------------------------------------------------------------
  // The loops of `process` that work on the local band array

  /** The band-grouping loop: a fresh array of the raw band values, each the
      mean of its bin range or 0. */
  method GroupIntoBands(magnitudes: seq<real>, edgeBin: (nat, nat) -> nat) returns (bands: array<real>)
    ensures fresh(bands) && bands[..] == Bands(magnitudes, edgeBin)
  {
    bands := new real[NumBands](_ => 0.0);
    for band := 0 to NumBands
      modifies bands
      invariant forall k :: 0 <= k < band ==> bands[k] == Bands(magnitudes, edgeBin)[k]
      invariant forall k :: band <= k < NumBands ==> bands[k] == 0.0
    {
      var (start, end) := BandRange(band, TotalBins, edgeBin);
      if start < end && end <= |magnitudes| {
        var sum := Sum(magnitudes[start..end]);
        bands[band] := sum / (end - start) as real;
      }
    }
  }

  /** The normalisation loop: divides every band by the frame maximum in
      place, unless that maximum is 0. */
  method NormalizeBands(bands: array<real>)
    modifies bands
    ensures bands[..] == Normalize(old(bands[..]))
  {
    ghost var raw := bands[..];
    var max := FrameMax(bands[..]);
    if max > 0.0 {
      for i := 0 to bands.Length
        invariant forall k :: 0 <= k < i ==> bands[k] == raw[k] / max
        invariant forall k :: i <= k < bands.Length ==> bands[k] == raw[k]
      {
        bands[i] := bands[i] / max;
      }
    }
  }

  // ---------------------------------------------------------------------------
  // The stateful analyzer

  class Analyzer {
    /** Hann weights, one per sample of the window. */
    const window: seq<real>
    /** The planned FFT followed by the modulus of each bin. */
    const spectrum: seq<real> -> seq<real>
    /** The logarithmic boundary-to-bin mapping. */
    const edgeBin: (nat, nat) -> nat
    /** The smoothed band set carried from one call to the next. */
    const smoothed: array<real>

    ghost predicate Valid()
    {
      smoothed.Length == NumBands && |window| == SampleSize && NonNegativeSpectrum(spectrum)
    }

    /** `Analyzer::new`: all bands start at 0 and the window has one weight per sample. */
    constructor (hann: nat -> real, spectrum: seq<real> -> seq<real>, edgeBin: (nat, nat) -> nat)
      requires NonNegativeSpectrum(spectrum)
      ensures Valid() && fresh(smoothed)
      ensures |window| == SampleSize && forall i :: 0 <= i < SampleSize ==> window[i] == hann(i)
      ensures forall i :: 0 <= i < NumBands ==> smoothed[i] == 0.0
      ensures this.spectrum == spectrum && this.edgeBin == edgeBin
    {
      window := seq(SampleSize, i requires 0 <= i < SampleSize => hann(i));
      this.spectrum := spectrum;
      this.edgeBin := edgeBin;
      smoothed := new real[NumBands](_ => 0.0);
    }

    /** `process`: returns the new smoothed band set, which is `Frame` of the old one. */
    method Process(samples: seq<real>) returns (out: seq<real>)
      requires Valid()
      modifies smoothed
      ensures Valid()
      ensures smoothed[..] == Frame(old(smoothed[..]), samples, window, spectrum, edgeBin)
      ensures out == smoothed[..]
    {
      if |samples| < SampleSize {
        return smoothed[..];
      }
      var magnitudes := Magnitudes(spectrum(Windowed(samples, window)));
      var bands := GroupIntoBands(magnitudes, edgeBin);
      NormalizeBands(bands);
      SmoothToward(bands);
      out := smoothed[..];
    }

    /** The smoothing loop: each band moves toward the frame's value, 70% of
        the gap on a rise and 15% otherwise. */
    method SmoothToward(bands: array<real>)
      requires Valid() && bands.Length == NumBands
      modifies smoothed
      ensures smoothed[..] == Smooth(old(smoothed[..]), old(bands[..]))
    {
      ghost var previous := smoothed[..];
      for i := 0 to NumBands
        modifies smoothed
        invariant forall k :: 0 <= k < i ==> smoothed[k] == SmoothStep(previous[k], bands[k])
        invariant forall k :: i <= k < NumBands ==> smoothed[k] == previous[k]
      {
        if bands[i] > smoothed[i] {
          smoothed[i] := smoothed[i] * 0.3 + bands[i] * 0.7; // fast attack
        } else {
          smoothed[i] := smoothed[i] * 0.85 + bands[i] * 0.15; // slow decay
        }
      }
    }
  }
}
