# Harmonic-analysis helpers, modelled in Dafny

`HA_helpers.py` offers three routines for the spectral analysis of a sampled
signal:

- `fourier_transform(signal, spacing)` returns the FFT of the signal and its
  frequency axis `fftfreq(n, spacing) * n * spacing`, resized to the spectrum.
- `spectrum(signal_fft, freqs, scaling, variance)` folds the spectrum into a
  one-sided amplitude, power or variance-explained (R2) spectrum over the
  indices `1 .. floor(n/2) - 1`, together with the matching frequencies.
- `inverse_fourier_transform(coefficients, sample_freq, min_freq, max_freq, exclude)`
  zeroes, on a copy of the spectrum, the coefficients that a sign exclusion,
  an exact-band pass, an upper bound and a lower bound select, in that order,
  and returns the inverse FFT of the copy.

The model has four modules:

- `Numbers` (`numbers.dfy`) holds the shared values: `Option`, `Result`,
  complex numbers with exact parts, `Zero`, and `Truthy`, Python's truthiness
  of an optional number (`None` and `0` are both false).
- `ForwardTransform` (`forward_transform.dfy`) models the frequency axis. The
  FFT is a function parameter. The axis is proved to be the conventional DFT
  bin index: `k` for `k < ceil(n/2)`, `k - n` for the rest.
- `SpectrumSummary` (`spectrum_summary.dfy`) is the pure function `Spectrum`.
  It takes the magnitudes `|fft|` as input, and the assertions and the index
  check of `np.take` become `Failure` results.
- `InverseTransform` (`inverse_transform.dfy`) is the method
  `InverseFourierTransform`. It copies the caller's `array` and runs one loop
  (`ZeroWhere`) per masked assignment `coefs[mask] = 0`. It is proved against
  `Filtered`, the same masks applied to a sequence in the same order.
  `Survives` is an independent reference definition: a frequency survives when
  it meets every constraint that is switched on. `FilteredAt` proves that the
  step-by-step masking keeps exactly the surviving entries.

Some behaviours of the code are easy to miss, and the model keeps them:

- The one-sided spectrum has `max(0, floor(n/2) - 1)` entries, so a signal
  shorter than 4 samples gives an empty spectrum rather than an error.
- `min_freq` and `max_freq` may be any number. A negative bound is truthy and
  is applied as written.
- `np.take` fails when the window is non-empty (n >= 4) and `freqs` is
  shorter than `floor(n/2)` (`FreqIndexOutOfRange`).
- A boolean mask fails when its length differs from the coefficient array's
  (`MaskLengthMismatch`).

## Model

| member | source | states |
|---|---|---|
| `ForwardTransform.NonNegativeBins` | HA_helpers.py:9 | fftfreq's count `(n-1)//2 + 1` of non-negative bins is ceil(n/2) |
| `ForwardTransform.BinIndex` | HA_helpers.py:9 | the bin of position k is the one integer congruent to k modulo n in `-(n/2) .. (n-1)/2` |
| `ForwardTransform.FrequencyAxis` | HA_helpers.py:9 | the closed-form bin-index axis has n entries; its values are described by BinSigns, BinMirror, BinOrder and AxisCounts |
| `ForwardTransform.FftFreq` | HA_helpers.py:9 | numpy's `fftfreq(n, d)` has n entries; ScaledBinCancels shows that rescaling an entry by n and d gives back its bin |
| `ForwardTransform.Resize` | HA_helpers.py:10 | the 1-D cyclic `np.resize` has the requested length; ResizeToOwnLength shows it is the identity at the array's own length |
| `ForwardTransform.FourierTransform` | HA_helpers.py:7-11 | the spectrum is `fft(signal)`; the resized axis has the spectrum's length |
| `ForwardTransform.ScaledBinCancels` | HA_helpers.py:9 | multiplying fftfreq's `b / (n*d)` by n and by d gives back the bin b, for any non-zero spacing |
| `ForwardTransform.ResizeToOwnLength` | HA_helpers.py:10 | `np.resize` to the array's own length is the identity |
| `ForwardTransform.FourierTransformAxis` | HA_helpers.py:9-10 | when the FFT keeps the signal's length, the returned axis is exactly the bin-index axis `FrequencyAxis(n)`, whatever the spacing |
| `ForwardTransform.BinSigns` | HA_helpers.py:9 | the bin is zero only at position 0; it is positive exactly for `0 < k < ceil(n/2)` and negative exactly from `ceil(n/2)` on |
| `ForwardTransform.BinMirror` | HA_helpers.py:9 | positions k and n-k have the same absolute frequency, and opposite bins except at `k = n/2` |
| `ForwardTransform.BinIndexInjective` | HA_helpers.py:9 | distinct positions have distinct bins |
| `ForwardTransform.BinOrder` | HA_helpers.py:9 | bins ascend within each half, and every non-negative bin lies above every negative bin |
| `ForwardTransform.AxisCounts` | HA_helpers.py:9 | the axis has one zero, ceil(n/2) - 1 positive entries and floor(n/2) negative entries |
| `SpectrumSummary.ParseScaling` | HA_helpers.py:15 | a scaling is accepted exactly when it is 'amplitude', 'power' or 'R2' |
| `SpectrumSummary.WindowLength` | HA_helpers.py:26-28 | the window `1 .. floor(n/2) - 1` is empty for n < 4, and for n >= 2 it has m entries with floor(n/2) = m + 1 (n is 2m+2 or 2m+3) |
| `SpectrumSummary.WindowIsIndexRange` | HA_helpers.py:26-28 | the indices the window reads, i + 1 for each entry i, are exactly the members of `range(1, floor(n/2))` |
| `SpectrumSummary.OneSidedAmplitude` | HA_helpers.py:23-27 | the folded amplitudes have the window's length |
| `SpectrumSummary.Scale` | HA_helpers.py:30-35 | each scaling keeps the number of entries |
| `SpectrumSummary.Spectrum` | HA_helpers.py:14-37 | fails with UnknownScaling iff the scaling is not one of the three; with VarianceRequired iff it is 'R2' and the variance is None or 0; with FreqIndexOutOfRange iff the checks pass, the window is non-empty and freqs is shorter than floor(n/2). On success both arrays have `max(0, floor(n/2) - 1)` entries, entry i of pos_freqs is `freqs[i+1]`, and the amplitude entry i is `2 * |X[i+1]| / n` |
| `SpectrumSummary.PowerIsAmplitudeSquared` | HA_helpers.py:30-33 | 'power' and 'amplitude' succeed together, share pos_freqs, and each power entry is the square of the amplitude entry |
| `SpectrumSummary.R2IsScaledPower` | HA_helpers.py:32-35 | with a truthy variance, 'R2' and 'power' succeed together, share pos_freqs, and each R2 entry is `(n/2) * power / ((n-1) * variance)` |
| `SpectrumSummary.SpectrumNonNegative` | HA_helpers.py:24-35 | non-negative magnitudes give non-negative values under every scaling; R2 needs a positive variance for this |
| `SpectrumSummary.OneSidedNonNegative` | HA_helpers.py:24-27 | non-negative magnitudes fold into non-negative one-sided amplitudes |
| `SpectrumSummary.ScaleNonNegative` | HA_helpers.py:30-35 | each scaling maps non-negative amplitudes to non-negative values, R2 when the variance is positive |
| `SpectrumSummary.SpectrumOnBinAxis` | HA_helpers.py:26-28 | on the axis of a transform of the same length, a valid call succeeds. Entry i of pos_freqs is the bin i+1. All of them are positive, and the window lies inside the non-negative half, so the DC bin and the negative bins are dropped |
| `InverseTransform.ParseExclude` | HA_helpers.py:41-46 | exclude is accepted exactly when it is 'positive', 'negative' or None; 'positive' selects exactly the positive-frequency exclusion, 'negative' the negative one, and None no sign exclusion |
| `Numbers.Truthy` | HA_helpers.py:17 | an optional number counts as given unless it is None or 0, as Python's `assert variance` and the `if max_freq` / `if min_freq` tests (lines 48, 51, 54) read it |
| `InverseTransform.Drops` | HA_helpers.py:44-55 | the five masks `freq > 0`, `freq < 0`, `abs(freq) != max_freq`, `abs(freq) > max_freq`, `abs(freq) < min_freq`; neither sign mask ever selects the zero frequency |
| `InverseTransform.ActiveRules` | HA_helpers.py:43-54 | at most four masked assignments run, in the source's order, and none runs iff exclude is None and both bounds are None or 0 |
| `InverseTransform.Survives` | HA_helpers.py:43-55 | reference definition of the band: with nothing switched on every frequency survives, and with truthy bounds where max_freq < min_freq none does |
| `InverseTransform.Mask` | HA_helpers.py:44 | a masked assignment keeps the array's length |
| `InverseTransform.ApplyRules` | HA_helpers.py:43-55 | successive masked assignments keep the array's length |
| `InverseTransform.Filtered` | HA_helpers.py:43-55 | the filtered copy has the spectrum's length |
| `InverseTransform.ZeroWhere` | HA_helpers.py:44 | fails, writing nothing, iff the mask's length differs from the array's. Otherwise the array becomes the masked sequence: zero where the mask selects, the old entry elsewhere |
| `InverseTransform.InverseFourierTransform` | HA_helpers.py:40-57 | fails with UnknownExclude iff exclude is invalid. Fails with MaskLengthMismatch iff exclude is valid, some step is switched on, and sample_freq's length differs from the coefficients'. Otherwise returns `ifft` of `Filtered` of the caller's coefficients, which are left unmodified (the method has no modifies clause) |
| `InverseTransform.ApplyRulesThen` | HA_helpers.py:43-55 | applying one more masked assignment after a sequence of them is the same as masking the earlier result |
| `InverseTransform.ApplyRulesAt` | HA_helpers.py:43-55 | after a sequence of masked assignments, an entry keeps its coefficient iff no mask selected it, and is zero otherwise |
| `InverseTransform.KeptConcat` | HA_helpers.py:43-55 | an entry survives two batches of masks iff it survives each batch |
| `InverseTransform.KeptActiveRules` | HA_helpers.py:43-55 | the four steps, run in the source's order, keep a frequency exactly when it meets every constraint that is switched on |
| `InverseTransform.FilteredAt` | HA_helpers.py:43-55 | each output entry is the input coefficient when its frequency meets every active constraint, and zero otherwise, so the filter only zeroes |
| `InverseTransform.FilteredRespectsBand` | HA_helpers.py:43-55 | every non-zero output entry is unchanged from the input. Its frequency has the kept sign. With `max_freq == min_freq` truthy, its magnitude equals max_freq. It is at most a truthy max_freq and at least a truthy min_freq |
| `InverseTransform.FilteredIdempotent` | HA_helpers.py:43-55 | filtering twice gives the same coefficients as filtering once |
| `InverseTransform.FalsyBoundsIgnored` | HA_helpers.py:48-55 | a bound that is None or 0 filters exactly like an absent one |
| `InverseTransform.NoFilterIsIdentity` | HA_helpers.py:43-55 | with exclude None and both bounds falsy, no step runs and the coefficients pass through unchanged |
| `InverseTransform.SignExclusion` | HA_helpers.py:43-46 | 'positive' zeroes exactly the entries with frequency > 0, and 'negative' exactly those < 0. Every other entry, the zero frequency included, is kept |
| `InverseTransform.ExcludeSymmetry` | HA_helpers.py:43-46 | the 'positive' and 'negative' outputs add up to the input spectrum, except that the zero-frequency coefficient is counted twice |
| `InverseTransform.DcNeverExcluded` | HA_helpers.py:43-46 | on the bin-index axis, sign exclusion never zeroes position 0 |

## Left out

- The FFT and the inverse FFT (`fftpack.fft`, `fftpack.ifft`) are foreign
  library routines. They are function parameters. Only `FourierTransformAxis`
  assumes anything of the FFT: that it keeps the signal's length. So the round trip `ifft(fft(s)) == s` is not proved. `NoFilterIsIdentity`
  shows only that an unfiltered spectrum reaches `ifft` unchanged.
- `np.abs` of complex coefficients is not modelled: `Spectrum` takes the
  magnitudes `|fft|` as given reals.
- Floating point is not modelled. Arithmetic is exact over `real`, so
  `fftfreq(n, d) * n * d` cancels exactly, and `!=` on frequencies is exact
  equality.
- Arrays with more than one axis are not modelled: the batch broadcasting of
  `np.resize` and `np.take` along the last axis. The model covers 1-D
  sequences only. `Resize` is the 1-D cyclic `np.resize`.
- The warning printed for multi-axis input (HA_helpers.py:20-21) is output
  only and does not change the result.
- Default argument values (`scaling='amplitude'`, `variance=None`,
  `min_freq=None`, `max_freq=None`, `exclude='negative'`) are not modelled:
  callers pass every argument.
- `scaling` and `exclude` are modelled as strings, and numeric arguments as
  exact reals. Python values of other types (NaN, non-string modes) are not
  modelled.
- FourierTransform: an empty signal and a zero spacing are preconditions here.
  In the source they raise an error from the FFT or from the division in
  `fftfreq`.
