/** `inverse_fourier_transform`: zero the coefficients outside the requested
    band on a copy of the spectrum, then hand the copy to the inverse FFT,
    which is a foreign routine and enters as a parameter. */
module InverseTransform {
  import opened Numbers
  import ForwardTransform

  /** Which half of the spectrum, by sign of frequency, is zeroed. */
  datatype Exclude = ExcludePositive | ExcludeNegative | ExcludeNothing

  /** The failures of the routine: the assertion on `exclude`, and a boolean
      mask whose length differs from the coefficient array's. */
  datatype FilterError = UnknownExclude | MaskLengthMismatch

  /** `exclude` must be 'positive', 'negative' or None. */
  function ParseExclude(e: Option<string>): (r: Option<Exclude>)
    ensures r.Some? <==> e in {None, Some("positive"), Some("negative")}
    ensures r == Some(ExcludeNothing) <==> e == None
    ensures r == Some(ExcludePositive) <==> e == Some("positive")
    ensures r == Some(ExcludeNegative) <==> e == Some("negative")
  {
    match e
    case None => Some(ExcludeNothing)
    case Some(s) =>
      if s == "positive" then Some(ExcludePositive)
      else if s == "negative" then Some(ExcludeNegative)
      else None
  }

  /** One masked assignment `coefs[mask] = 0`, named by its mask. */
  datatype Rule = Positive | Negative | OffBand(f: real) | Above(f: real) | Below(f: real)

  /** Whether the mask of `rule` selects a coefficient at frequency f. */
  predicate Drops(rule: Rule, f: real)
    ensures Drops(rule, f) && f == 0.0 ==> rule !in {Positive, Negative}
  {
    match rule
    case Positive => f > 0.0
    case Negative => f < 0.0
    case OffBand(m) => Abs(f) != m
    case Above(m) => Abs(f) > m
    case Below(m) => Abs(f) < m
  }

  /** The masked assignments the arguments switch on, in the order the
      routine performs them: sign exclusion, exact band, upper bound, lower
      bound. A bound that is None or 0 switches its step off. */
  function ActiveRules(minFreq: Option<real>, maxFreq: Option<real>, mode: Exclude): (rules: seq<Rule>)
    ensures |rules| <= 4
    ensures rules == [] <==> mode == ExcludeNothing && !Truthy(minFreq) && !Truthy(maxFreq)
  {
    (match mode
     case ExcludePositive => [Positive]
     case ExcludeNegative => [Negative]
     case ExcludeNothing => [])
    + (if maxFreq == minFreq && Truthy(maxFreq) then [OffBand(maxFreq.value)] else [])
    + (if Truthy(maxFreq) then [Above(maxFreq.value)] else [])
    + (if Truthy(minFreq) then [Below(minFreq.value)] else [])
  }

  /** One masked assignment on a sequence of coefficients. */
  function Mask(c: seq<Complex>, freqs: seq<real>, rule: Rule): (r: seq<Complex>)
    requires |c| == |freqs|
    ensures |r| == |c|
  {
    seq(|c|, i requires 0 <= i < |c| => if Drops(rule, freqs[i]) then Zero else c[i])
  }

  /** The masked assignments of `rules`, one after the other. */
  function ApplyRules(c: seq<Complex>, freqs: seq<real>, rules: seq<Rule>): (r: seq<Complex>)
    requires rules == [] || |c| == |freqs|
    ensures |r| == |c|
    decreases |rules|
  {
    if rules == [] then c else ApplyRules(Mask(c, freqs, rules[0]), freqs, rules[1..])
  }

  /** The coefficients the routine hands to the inverse FFT. */
  function Filtered(c: seq<Complex>, freqs: seq<real>, minFreq: Option<real>, maxFreq: Option<real>, mode: Exclude)
    : (r: seq<Complex>)
    requires ActiveRules(minFreq, maxFreq, mode) == [] || |c| == |freqs|
    ensures |r| == |c|
  {
    ApplyRules(c, freqs, ActiveRules(minFreq, maxFreq, mode))
  }

  /** Reference definition: a frequency survives when it meets every
      constraint the arguments switch on. */
  predicate Survives(f: real, minFreq: Option<real>, maxFreq: Option<real>, mode: Exclude)
    ensures mode == ExcludeNothing && !Truthy(minFreq) && !Truthy(maxFreq) ==> Survives(f, minFreq, maxFreq, mode)
    ensures Truthy(minFreq) && Truthy(maxFreq) && maxFreq.value < minFreq.value ==> !Survives(f, minFreq, maxFreq, mode)
  {
    && (mode == ExcludePositive ==> f <= 0.0)
    && (mode == ExcludeNegative ==> f >= 0.0)
    && (maxFreq == minFreq && Truthy(maxFreq) ==> Abs(f) == maxFreq.value)
    && (Truthy(maxFreq) ==> Abs(f) <= maxFreq.value)
    && (Truthy(minFreq) ==> Abs(f) >= minFreq.value)
  }

  /** No rule in `rules` selects frequency f. */
  predicate Kept(rules: seq<Rule>, f: real)
    decreases |rules|
  {
    rules == [] || (!Drops(rules[0], f) && Kept(rules[1..], f))
  }

  // ---------------------------------------------------------------------
  // The routine

  /** `a[mask] = 0` for the mask of `rule` over `freqs`; numpy refuses a mask
      of the wrong length, and then nothing is written. */
  method ZeroWhere(a: array<Complex>, freqs: seq<real>, rule: Rule) returns (ok: bool)
    modifies a
    ensures ok <==> |freqs| == a.Length
    ensures ok ==> a[..] == Mask(old(a[..]), freqs, rule)
    ensures !ok ==> a[..] == old(a[..])
  {
    if |freqs| != a.Length {
      return false;
    }
    var i := 0;
    while i < a.Length
      invariant 0 <= i <= a.Length
      invariant forall k :: 0 <= k < i ==> a[k] == if Drops(rule, freqs[k]) then Zero else old(a[k])
      invariant forall k :: i <= k < a.Length ==> a[k] == old(a[k])
    {
      if Drops(rule, freqs[i]) {
        a[i] := Zero;
      }
      i := i + 1;
    }
    return true;
  }

  /** inverse_fourier_transform(coefficients, sample_freq, min_freq, max_freq,
      exclude). It writes only to a fresh copy: having no modifies clause,
      it leaves the caller's `coefficients` as they were. */
  method InverseFourierTransform(coefficients: array<Complex>, sampleFreq: seq<real>,
                                 minFreq: Option<real>, maxFreq: Option<real>, exclude: Option<string>,
                                 ifft: seq<Complex> -> seq<Complex>)
    returns (r: Result<seq<Complex>, FilterError>)
    ensures r == Failure(UnknownExclude) <==> ParseExclude(exclude).None?
    ensures r == Failure(MaskLengthMismatch) <==>
      && ParseExclude(exclude).Some?
      && ActiveRules(minFreq, maxFreq, ParseExclude(exclude).value) != []
      && |sampleFreq| != coefficients.Length
    ensures r.Success? ==>
      && ParseExclude(exclude).Some?
      && (ActiveRules(minFreq, maxFreq, ParseExclude(exclude).value) == [] || |sampleFreq| == coefficients.Length)
      && r.value == ifft(Filtered(coefficients[..], sampleFreq, minFreq, maxFreq, ParseExclude(exclude).value))
  {
    var parsed := ParseExclude(exclude);
    if parsed.None? {
      return Failure(UnknownExclude);
    }
    var mode := parsed.value;
    var coefs := new Complex[coefficients.Length](i requires 0 <= i < coefficients.Length reads coefficients => coefficients[i]);
    ghost var original := coefficients[..];
    ghost var done: seq<Rule> := [];
    assert coefs[..] == original;
    var ok := true;

    if mode == ExcludePositive {
      ok := ZeroWhere(coefs, sampleFreq, Positive);
      if !ok {
        return Failure(MaskLengthMismatch);
      }
      ApplyRulesThen(original, sampleFreq, done, Positive);
      done := done + [Positive];
    } else if mode == ExcludeNegative {
      ok := ZeroWhere(coefs, sampleFreq, Negative);
      if !ok {
        return Failure(MaskLengthMismatch);
      }
      ApplyRulesThen(original, sampleFreq, done, Negative);
      done := done + [Negative];
    }

    if maxFreq == minFreq && Truthy(maxFreq) {
      ok := ZeroWhere(coefs, sampleFreq, OffBand(maxFreq.value));
      if !ok {
        return Failure(MaskLengthMismatch);
      }
      ApplyRulesThen(original, sampleFreq, done, OffBand(maxFreq.value));
      done := done + [OffBand(maxFreq.value)];
    }

    if Truthy(maxFreq) {
      ok := ZeroWhere(coefs, sampleFreq, Above(maxFreq.value));
      if !ok {
        return Failure(MaskLengthMismatch);
      }
      ApplyRulesThen(original, sampleFreq, done, Above(maxFreq.value));
      done := done + [Above(maxFreq.value)];
    }

    if Truthy(minFreq) {
      ok := ZeroWhere(coefs, sampleFreq, Below(minFreq.value));
      if !ok {
        return Failure(MaskLengthMismatch);
      }
      ApplyRulesThen(original, sampleFreq, done, Below(minFreq.value));
      done := done + [Below(minFreq.value)];
    }

    assert done == ActiveRules(minFreq, maxFreq, mode);
    return Success(ifft(coefs[..]));
  }

  // ---------------------------------------------------------------------
  // Properties of the filter

  /** Applying one more rule after `rules` is masking the result with it. */
  lemma {:induction false} ApplyRulesThen(c: seq<Complex>, freqs: seq<real>, rules: seq<Rule>, rule: Rule)
    requires |c| == |freqs|
    ensures ApplyRules(c, freqs, rules + [rule]) == Mask(ApplyRules(c, freqs, rules), freqs, rule)
    decreases |rules|
  {
    if rules == [] {
      assert [] + [rule] == [rule];
      assert [rule][1..] == [];
    } else {
      assert (rules + [rule])[0] == rules[0];
      assert (rules + [rule])[1..] == rules[1..] + [rule];
      ApplyRulesThen(Mask(c, freqs, rules[0]), freqs, rules[1..], rule);
    }
  }

  /** After the rules have run, an entry is the original coefficient when no
      rule selects its frequency, and zero otherwise. */
  lemma {:induction false} ApplyRulesAt(c: seq<Complex>, freqs: seq<real>, rules: seq<Rule>, i: nat)
    requires |c| == |freqs| && i < |c|
    ensures ApplyRules(c, freqs, rules)[i] == if Kept(rules, freqs[i]) then c[i] else Zero
    decreases |rules|
  {
    if rules != [] {
      ApplyRulesAt(Mask(c, freqs, rules[0]), freqs, rules[1..], i);
    }
  }

  /** A frequency is kept by a concatenation of rules when it is kept by each part. */
  lemma {:induction false} KeptConcat(a: seq<Rule>, b: seq<Rule>, f: real)
    ensures Kept(a + b, f) <==> Kept(a, f) && Kept(b, f)
    decreases |a|
  {
    if a == [] {
      assert a + b == b;
    } else {
      assert (a + b)[0] == a[0];
      assert (a + b)[1..] == a[1..] + b;
      KeptConcat(a[1..], b, f);
    }
  }

  /** The step-by-step masking keeps exactly the frequencies the reference
      definition lets survive. */
  lemma KeptActiveRules(f: real, minFreq: Option<real>, maxFreq: Option<real>, mode: Exclude)
    ensures Kept(ActiveRules(minFreq, maxFreq, mode), f) <==> Survives(f, minFreq, maxFreq, mode)
  {
    var sign: seq<Rule> := match mode
      case ExcludePositive => [Positive]
      case ExcludeNegative => [Negative]
      case ExcludeNothing => [];
    var band: seq<Rule> := if maxFreq == minFreq && Truthy(maxFreq) then [OffBand(maxFreq.value)] else [];
    var upper: seq<Rule> := if Truthy(maxFreq) then [Above(maxFreq.value)] else [];
    var lower: seq<Rule> := if Truthy(minFreq) then [Below(minFreq.value)] else [];
    assert ActiveRules(minFreq, maxFreq, mode) == sign + band + upper + lower;
    KeptConcat(sign + band + upper, lower, f);
    KeptConcat(sign + band, upper, f);
    KeptConcat(sign, band, f);
  }

  /** Each output entry is the input coefficient when its frequency meets
      every active constraint, and zero otherwise: the filter only zeroes,
      and it keeps exactly the intersection of the constraints. */
  lemma FilteredAt(c: seq<Complex>, freqs: seq<real>, minFreq: Option<real>, maxFreq: Option<real>,
                   mode: Exclude, i: nat)
    requires |c| == |freqs| && i < |c|
    ensures Filtered(c, freqs, minFreq, maxFreq, mode)[i] ==
      if Survives(freqs[i], minFreq, maxFreq, mode) then c[i] else Zero
  {
    ApplyRulesAt(c, freqs, ActiveRules(minFreq, maxFreq, mode), i);
    KeptActiveRules(freqs[i], minFreq, maxFreq, mode);
  }

  /** Every non-zero output entry meets each active constraint: its frequency
      has the kept sign, equals the exact band in magnitude, and lies within
      the upper and lower bounds. */
  lemma FilteredRespectsBand(c: seq<Complex>, freqs: seq<real>, minFreq: Option<real>, maxFreq: Option<real>,
                             mode: Exclude)
    requires |c| == |freqs|
    ensures forall i :: 0 <= i < |c| && Filtered(c, freqs, minFreq, maxFreq, mode)[i] != Zero ==>
      && c[i] == Filtered(c, freqs, minFreq, maxFreq, mode)[i]
      && (mode == ExcludePositive ==> freqs[i] <= 0.0)
      && (mode == ExcludeNegative ==> freqs[i] >= 0.0)
      && (maxFreq == minFreq && Truthy(maxFreq) ==> Abs(freqs[i]) == maxFreq.value)
      && (Truthy(maxFreq) ==> Abs(freqs[i]) <= maxFreq.value)
      && (Truthy(minFreq) ==> Abs(freqs[i]) >= minFreq.value)
  {
    forall i | 0 <= i < |c| {
      FilteredAt(c, freqs, minFreq, maxFreq, mode, i);
    }
  }

  /** Filtering an already filtered spectrum changes nothing. */
  lemma FilteredIdempotent(c: seq<Complex>, freqs: seq<real>, minFreq: Option<real>, maxFreq: Option<real>,
                           mode: Exclude)
    requires |c| == |freqs|
    ensures Filtered(Filtered(c, freqs, minFreq, maxFreq, mode), freqs, minFreq, maxFreq, mode)
         == Filtered(c, freqs, minFreq, maxFreq, mode)
  {
    var once := Filtered(c, freqs, minFreq, maxFreq, mode);
    forall i | 0 <= i < |c| ensures Filtered(once, freqs, minFreq, maxFreq, mode)[i] == once[i] {
      FilteredAt(c, freqs, minFreq, maxFreq, mode, i);
      FilteredAt(once, freqs, minFreq, maxFreq, mode, i);
    }
  }

  /** A bound that is None or 0 is ignored: it filters exactly as an absent one. */
  lemma FalsyBoundsIgnored(c: seq<Complex>, freqs: seq<real>, minFreq: Option<real>, maxFreq: Option<real>,
                           mode: Exclude)
    requires |c| == |freqs|
    ensures !Truthy(minFreq) ==>
      Filtered(c, freqs, minFreq, maxFreq, mode) == Filtered(c, freqs, None, maxFreq, mode)
    ensures !Truthy(maxFreq) ==>
      Filtered(c, freqs, minFreq, maxFreq, mode) == Filtered(c, freqs, minFreq, None, mode)
  {
  }

  /** With no sign exclusion and no bound switched on, the spectrum is passed
      to the inverse FFT as it is. */
  lemma NoFilterIsIdentity(c: seq<Complex>, freqs: seq<real>, minFreq: Option<real>, maxFreq: Option<real>)
    requires !Truthy(minFreq) && !Truthy(maxFreq)
    ensures ActiveRules(minFreq, maxFreq, ExcludeNothing) == []
    ensures Filtered(c, freqs, minFreq, maxFreq, ExcludeNothing) == c
  {
  }

  /** Sign exclusion alone zeroes exactly the positive (or the negative)
      frequencies and keeps everything else, the zero frequency included. */
  lemma SignExclusion(c: seq<Complex>, freqs: seq<real>, i: nat)
    requires |c| == |freqs| && i < |c|
    ensures Filtered(c, freqs, None, None, ExcludePositive)[i] == if freqs[i] > 0.0 then Zero else c[i]
    ensures Filtered(c, freqs, None, None, ExcludeNegative)[i] == if freqs[i] < 0.0 then Zero else c[i]
  {
    FilteredAt(c, freqs, None, None, ExcludePositive, i);
    FilteredAt(c, freqs, None, None, ExcludeNegative, i);
  }

  /** The two sign exclusions zero complementary halves: their outputs add up
      to the input, with the zero-frequency coefficient counted twice. */
  lemma ExcludeSymmetry(c: seq<Complex>, freqs: seq<real>, i: nat)
    requires |c| == |freqs| && i < |c|
    ensures Filtered(c, freqs, None, None, ExcludePositive)[i].Add(Filtered(c, freqs, None, None, ExcludeNegative)[i])
         == if freqs[i] == 0.0 then c[i].Add(c[i]) else c[i]
  {
    SignExclusion(c, freqs, i);
  }

  /** On the axis fourier_transform produces, sign exclusion never zeroes
      position 0, the zero-frequency (DC) coefficient. */
  lemma DcNeverExcluded(c: seq<Complex>, mode: Exclude)
    requires |c| > 0
    ensures Filtered(c, ForwardTransform.FrequencyAxis(|c|), None, None, mode)[0] == c[0]
  {
    FilteredAt(c, ForwardTransform.FrequencyAxis(|c|), None, None, mode, 0);
  }
}
