/** `spectrum`: the one-sided amplitude, power or variance-explained spectrum.
    The complex magnitudes `|fft|` are taken as given; the division by n,
    the index window 1 .. floor(n/2) - 1, the doubling and the three
    scalings are exact real arithmetic. */
module SpectrumSummary {
  import opened Numbers
  import ForwardTransform

  /** The three scalings the routine accepts. */
  datatype Scaling = Amplitude | Power | R2

  /** The failures of the routine: the two assertions, and np.take reading
      past the end of a frequency axis that is too short. */
  datatype SpectrumError = UnknownScaling | VarianceRequired | FreqIndexOutOfRange

  /** The accepted spellings of `scaling`. */
  const ScalingNames: seq<string> := ["amplitude", "power", "R2"]

  function ParseScaling(s: string): (r: Option<Scaling>)
    ensures r.Some? <==> s in ScalingNames
    ensures r == Some(R2) <==> s == "R2"
  {
    if s == "amplitude" then Some(Amplitude)
    else if s == "power" then Some(Power)
    else if s == "R2" then Some(R2)
    else None
  }

  /** Number of entries in the index window 1 .. floor(n/2) - 1. */
  function WindowLength(n: nat): (m: nat)
    ensures n < 4 ==> m == 0
    ensures n >= 2 ==> 2 * (m + 1) <= n < 2 * (m + 2)
  {
    if n / 2 >= 1 then n / 2 - 1 else 0
  }

  /** Entry i of the window comes from index i + 1, so the window reads
      exactly the indices of `range(1, floor(n/2))`. */
  lemma WindowIsIndexRange(n: nat)
    ensures forall j :: j in ForwardTransform.Range(1, n / 2) <==> 1 <= j <= WindowLength(n)
  {
    if n / 2 >= 1 {
      ForwardTransform.RangeFacts(1, n / 2);
    } else {
      assert ForwardTransform.Range(1, n / 2) == {};
    }
  }

  /** `2 * take(|fft| / n, range(1, floor(n/2)))`: the folded one-sided amplitudes. */
  function OneSidedAmplitude(absFft: seq<real>): (posAmp: seq<real>)
    ensures |posAmp| == WindowLength(|absFft|)
  {
    var n := |absFft|;
    var amp := seq(n, k requires 0 <= k < n => absFft[k] / n as real);
    seq(WindowLength(n), i requires 0 <= i < WindowLength(n) => 2.0 * amp[i + 1])
  }

  /** The requested scaling applied to the one-sided amplitudes. */
  function Scale(mode: Scaling, posAmp: seq<real>, n: nat, variance: Option<real>): (r: seq<real>)
    requires mode == R2 ==> Truthy(variance) && (posAmp != [] ==> n > 1)
    ensures |r| == |posAmp|
  {
    match mode
    case Amplitude => posAmp
    case Power => seq(|posAmp|, i requires 0 <= i < |posAmp| => posAmp[i] * posAmp[i])
    case R2 =>
      seq(|posAmp|, i requires 0 <= i < |posAmp| =>
        (n as real / 2.0) * (posAmp[i] * posAmp[i]) / ((n as real - 1.0) * variance.value))
  }

  /** spectrum(signal_fft, freqs, scaling, variance), with `absFft` the
      magnitudes of the transform. On success the pair is the scaled
      one-sided values and the matching positive frequencies. */
  function Spectrum(absFft: seq<real>, freqs: seq<real>, scaling: string, variance: Option<real>)
    : (r: Result<(seq<real>, seq<real>), SpectrumError>)
    ensures r == Failure(UnknownScaling) <==> scaling !in ScalingNames
    ensures r == Failure(VarianceRequired) <==> scaling == "R2" && !Truthy(variance)
    ensures r == Failure(FreqIndexOutOfRange) <==>
      && scaling in ScalingNames
      && (scaling == "R2" ==> Truthy(variance))
      && WindowLength(|absFft|) > 0
      && |freqs| < |absFft| / 2
    ensures r.Success? ==> |r.value.0| == |r.value.1| == WindowLength(|absFft|)
    ensures r.Success? ==> forall i :: 0 <= i < |r.value.1| ==> r.value.1[i] == freqs[i + 1]
    ensures r.Success? && scaling == "amplitude" ==>
      forall i :: 0 <= i < |r.value.0| ==> r.value.0[i] == 2.0 * (absFft[i + 1] / |absFft| as real)
  {
    var mode := ParseScaling(scaling);
    if mode.None? then Failure(UnknownScaling)
    else if mode.value == R2 && !Truthy(variance) then Failure(VarianceRequired)
    else
      var n := |absFft|;
      var posAmp := OneSidedAmplitude(absFft);
      if |posAmp| > 0 && |freqs| < n / 2 then Failure(FreqIndexOutOfRange)
      else
        var posFreqs := seq(|posAmp|, i requires 0 <= i < |posAmp| => freqs[i + 1]);
        Success((Scale(mode.value, posAmp, n, variance), posFreqs))
  }

  /** The 'power' spectrum is the 'amplitude' spectrum squared entry by entry;
      the two succeed or fail together and share the frequency axis. */
  lemma PowerIsAmplitudeSquared(absFft: seq<real>, freqs: seq<real>, v1: Option<real>, v2: Option<real>)
    ensures Spectrum(absFft, freqs, "power", v1).Success? <==> Spectrum(absFft, freqs, "amplitude", v2).Success?
    ensures Spectrum(absFft, freqs, "power", v1).Success? ==>
      var p := Spectrum(absFft, freqs, "power", v1).value;
      var a := Spectrum(absFft, freqs, "amplitude", v2).value;
      && p.1 == a.1
      && |p.0| == |a.0|
      && forall i :: 0 <= i < |p.0| ==> p.0[i] == a.0[i] * a.0[i]
  {
  }

  /** The 'R2' spectrum is the 'power' spectrum times (n/2) / ((n-1) * variance):
      with a truthy variance the two succeed or fail together. */
  lemma R2IsScaledPower(absFft: seq<real>, freqs: seq<real>, variance: Option<real>)
    requires Truthy(variance)
    ensures Spectrum(absFft, freqs, "R2", variance).Success? <==> Spectrum(absFft, freqs, "power", variance).Success?
    ensures Spectrum(absFft, freqs, "R2", variance).Success? ==>
      var r := Spectrum(absFft, freqs, "R2", variance).value;
      var p := Spectrum(absFft, freqs, "power", variance).value;
      var n := |absFft| as real;
      && r.1 == p.1
      && |r.0| == |p.0|
      && forall i :: 0 <= i < |r.0| ==> r.0[i] == (n / 2.0) * p.0[i] / ((n - 1.0) * variance.value)
  {
  }

  /** Non-negative magnitudes give non-negative amplitude and power spectra,
      and a non-negative R2 spectrum when the variance is positive. */
  lemma SpectrumNonNegative(absFft: seq<real>, freqs: seq<real>, scaling: string, variance: Option<real>)
    requires forall k :: 0 <= k < |absFft| ==> absFft[k] >= 0.0
    requires scaling == "R2" ==> variance.Some? && variance.value > 0.0
    ensures Spectrum(absFft, freqs, scaling, variance).Success? ==>
      forall i :: 0 <= i < |Spectrum(absFft, freqs, scaling, variance).value.0| ==>
        Spectrum(absFft, freqs, scaling, variance).value.0[i] >= 0.0
  {
    var r := Spectrum(absFft, freqs, scaling, variance);
    if r.Success? {
      var mode := ParseScaling(scaling).value;
      OneSidedNonNegative(absFft);
      ScaleNonNegative(mode, OneSidedAmplitude(absFft), |absFft|, variance);
      assert r.value.0 == Scale(mode, OneSidedAmplitude(absFft), |absFft|, variance);
    }
  }

  /** Folding non-negative magnitudes gives non-negative amplitudes. */
  lemma OneSidedNonNegative(absFft: seq<real>)
    requires forall k :: 0 <= k < |absFft| ==> absFft[k] >= 0.0
    ensures forall i :: 0 <= i < |OneSidedAmplitude(absFft)| ==> OneSidedAmplitude(absFft)[i] >= 0.0
  {
    var posAmp := OneSidedAmplitude(absFft);
    forall i | 0 <= i < |posAmp| ensures posAmp[i] >= 0.0 {
      assert posAmp[i] == 2.0 * (absFft[i + 1] / |absFft| as real);
    }
  }

  /** Every scaling keeps non-negative amplitudes non-negative, R2 when the
      variance is positive. */
  lemma ScaleNonNegative(mode: Scaling, posAmp: seq<real>, n: nat, variance: Option<real>)
    requires mode == R2 ==> Truthy(variance) && (posAmp != [] ==> n > 1)
    requires mode == R2 ==> variance.value > 0.0
    requires forall i :: 0 <= i < |posAmp| ==> posAmp[i] >= 0.0
    ensures forall i :: 0 <= i < |posAmp| ==> Scale(mode, posAmp, n, variance)[i] >= 0.0
  {
    var r := Scale(mode, posAmp, n, variance);
    forall i | 0 <= i < |posAmp| ensures r[i] >= 0.0 {
      var sq := posAmp[i] * posAmp[i];
      assert sq >= 0.0;
      if mode == R2 {
        var den := (n as real - 1.0) * variance.value;
        assert den > 0.0;
        assert r[i] == (n as real / 2.0) * sq / den;
      }
    }
  }

  /** On the axis fourier_transform produces, the one-sided window holds the
      bins 1, 2, .. floor(n/2) - 1: all strictly positive, ascending, and in
      the non-negative half of the axis, so the DC bin and every negative
      bin are left out. */
  lemma SpectrumOnBinAxis(absFft: seq<real>, scaling: string, variance: Option<real>)
    requires |absFft| > 0
    requires scaling in ScalingNames && (scaling == "R2" ==> Truthy(variance))
    ensures Spectrum(absFft, ForwardTransform.FrequencyAxis(|absFft|), scaling, variance).Success?
    ensures var posFreqs := Spectrum(absFft, ForwardTransform.FrequencyAxis(|absFft|), scaling, variance).value.1;
      && (forall i :: 0 <= i < |posFreqs| ==> posFreqs[i] == (i + 1) as real && posFreqs[i] > 0.0)
      && |posFreqs| < ForwardTransform.NonNegativeBins(|absFft|)
  {
  }
}
