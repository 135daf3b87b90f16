/** `fourier_transform`: the forward transform and its frequency axis.
    The FFT itself is a foreign routine and enters as a parameter; what is
    modelled is the axis `fftfreq(n, d) * n * d`, resized to the spectrum. */
module ForwardTransform {
  import opened Numbers

  /** Number of non-negative bins of an n-point transform, ceil(n/2),
      written the way fftfreq computes it: (n - 1) // 2 + 1. */
  function NonNegativeBins(n: nat): (m: nat)
    requires n > 0
    ensures n <= 2 * m <= n + 1
  {
    (n - 1) / 2 + 1
  }

  /** The bin that position k of an n-point transform stands for: the
      representative of k modulo n in the window -(n/2) .. (n-1)/2. */
  function BinIndex(n: nat, k: nat): (b: int)
    requires k < n
    ensures b == k || b == k - n
    ensures -(n / 2) <= b <= (n - 1) / 2
  {
    if k < NonNegativeBins(n) then k else k - n
  }

  /** The closed-form frequency axis: the bin index of every position. */
  function FrequencyAxis(n: nat): (f: seq<real>)
    ensures |f| == n
  {
    seq(n, k requires 0 <= k < n => BinIndex(n, k) as real)
  }

  /** fftfreq(n, d): bin index times 1 / (n * d). */
  function FftFreq(n: nat, d: real): (f: seq<real>)
    requires n > 0 && d != 0.0
    ensures |f| == n
  {
    seq(n, k requires 0 <= k < n => BinIndex(n, k) as real * (1.0 / (n as real * d)))
  }

  /** np.resize of a 1-D array to length m: the array repeated cyclically. */
  function Resize<T>(a: seq<T>, m: nat): (r: seq<T>)
    requires |a| > 0
    ensures |r| == m
  {
    seq(m, i requires 0 <= i < m => a[i % |a|])
  }

  /** fourier_transform(signal, spacing): the spectrum `fft(signal)` and the
      axis `fftfreq(n, spacing) * n * spacing`, resized to the spectrum. */
  function FourierTransform(signal: seq<Complex>, spacing: real, fft: seq<Complex> -> seq<Complex>)
    : (r: (seq<Complex>, seq<real>))
    requires |signal| > 0 && spacing != 0.0
    ensures r.0 == fft(signal)
    ensures |r.1| == |r.0|
  {
    var n := |signal|;
    var sigFft := fft(signal);
    var freq := FftFreq(n, spacing);
    var sampleFreq := seq(n, k requires 0 <= k < n => freq[k] * n as real * spacing);
    (sigFft, Resize(sampleFreq, |sigFft|))
  }

  /** Scaling a bin by 1 / (n * d) and then by n and by d gives the bin back. */
  lemma ScaledBinCancels(b: int, n: nat, d: real)
    requires n > 0 && d != 0.0
    ensures b as real * (1.0 / (n as real * d)) * n as real * d == b as real
  {
  }

  /** Resizing to the array's own length leaves it as it is. */
  lemma ResizeToOwnLength<T>(a: seq<T>)
    requires |a| > 0
    ensures Resize(a, |a|) == a
  {
  }

  /** The axis fourier_transform returns is the bin index of every position:
      the rescaling by n * spacing undoes fftfreq's 1 / (n * spacing), and the
      resize is the identity because the FFT keeps the signal's length. */
  lemma FourierTransformAxis(signal: seq<Complex>, spacing: real, fft: seq<Complex> -> seq<Complex>)
    requires |signal| > 0 && spacing != 0.0
    requires |fft(signal)| == |signal|
    ensures FourierTransform(signal, spacing, fft).1 == FrequencyAxis(|signal|)
  {
    var n := |signal|;
    var freq := FftFreq(n, spacing);
    var sampleFreq := seq(n, k requires 0 <= k < n => freq[k] * n as real * spacing);
    forall k | 0 <= k < n ensures sampleFreq[k] == FrequencyAxis(n)[k] {
      ScaledBinCancels(BinIndex(n, k), n, spacing);
    }
    assert sampleFreq == FrequencyAxis(n);
    ResizeToOwnLength(sampleFreq);
  }

  /** Sign of the bins: position 0 is the only zero, the positions below
      ceil(n/2) are positive and the rest are negative. */
  lemma BinSigns(n: nat, k: nat)
    requires k < n
    ensures BinIndex(n, k) == 0 <==> k == 0
    ensures BinIndex(n, k) > 0 <==> 0 < k < NonNegativeBins(n)
    ensures BinIndex(n, k) < 0 <==> NonNegativeBins(n) <= k
  {
  }

  /** Positions k and n - k hold the same frequency magnitude; their bins are
      opposite except at k = n/2 for even n, where both are -n/2. */
  lemma BinMirror(n: nat, k: nat)
    requires 0 < k < n
    ensures Abs(BinIndex(n, n - k) as real) == Abs(BinIndex(n, k) as real)
    ensures 2 * k != n ==> BinIndex(n, n - k) == -BinIndex(n, k)
  {
  }

  /** Distinct positions stand for distinct bins. */
  lemma BinIndexInjective(n: nat, j: nat, k: nat)
    requires j < n && k < n && j != k
    ensures BinIndex(n, j) != BinIndex(n, k)
  {
  }

  /** The axis ascends within each half, and every non-negative bin lies above
      every negative one. */
  lemma BinOrder(n: nat, j: nat, k: nat)
    requires j < k < n
    ensures (k < NonNegativeBins(n) || NonNegativeBins(n) <= j) ==> BinIndex(n, j) < BinIndex(n, k)
    ensures j < NonNegativeBins(n) <= k ==> BinIndex(n, k) < 0 <= BinIndex(n, j)
  {
  }

  /** The integers lo .. hi - 1, as a set. */
  function Range(lo: int, hi: int): set<int>
    decreases hi - lo
  {
    if lo >= hi then {} else {lo} + Range(lo + 1, hi)
  }

  /** Range(lo, hi) holds exactly lo .. hi - 1, so it has hi - lo members. */
  lemma {:induction false} RangeFacts(lo: int, hi: int)
    requires lo <= hi
    ensures forall x :: x in Range(lo, hi) <==> lo <= x < hi
    ensures |Range(lo, hi)| == hi - lo
    decreases hi - lo
  {
    if lo < hi {
      RangeFacts(lo + 1, hi);
      assert lo !in Range(lo + 1, hi);
    }
  }

  /** The axis of an n-point transform has exactly one zero, ceil(n/2) - 1
      positive and floor(n/2) negative entries. */
  lemma AxisCounts(n: nat)
    requires n > 0
    ensures |set k | 0 <= k < n && BinIndex(n, k) == 0| == 1
    ensures |set k | 0 <= k < n && BinIndex(n, k) > 0| == NonNegativeBins(n) - 1
    ensures |set k | 0 <= k < n && BinIndex(n, k) < 0| == n / 2
  {
    var m := NonNegativeBins(n);
    RangeFacts(1, m);
    RangeFacts(m, n);
    assert (set k | 0 <= k < n && BinIndex(n, k) == 0) == {0};
    assert (set k | 0 <= k < n && BinIndex(n, k) > 0) == Range(1, m);
    assert (set k | 0 <= k < n && BinIndex(n, k) < 0) == Range(m, n);
  }
}
