/** Running statistics over the reals (libs/resilience/timeout2.py). */
module RunningStats {
  import opened Texts

  /** The fields; None stands for the infinities that `min_val` and `max_val` start from. */
  datatype Stats = Stats(count: nat, mean: real, m2: real, minVal: Option<real>, maxVal: Option<real>)

  const START := Stats(0, 0.0, 0.0, None, None)

  function Lesser(a: Option<real>, b: real): real {
    if a.Some? && a.value <= b then a.value else b
  }

  function Greater(a: Option<real>, b: real): real {
    if a.Some? && a.value >= b then a.value else b
  }

  function Updated(s: Stats, value: real): Stats {
    var count := s.count + 1;
    var delta := value - s.mean;
    var mean := s.mean + delta / count as real;
    var delta2 := value - mean;
    Stats(count, mean, s.m2 + delta * delta2, Some(Lesser(s.minVal, value)), Some(Greater(s.maxVal, value)))
  }

  /** The statistics after the samples, in order. */
  function After(samples: seq<real>): Stats {
    if samples == [] then START else Updated(After(samples[..|samples| - 1]), samples[|samples| - 1])
  }

  class RunningStats {
    var count: nat
    var mean: real
    var m2: real
    var minVal: Option<real>
    var maxVal: Option<real>

    ghost function Contents(): Stats
      reads this
    {
      Stats(count, mean, m2, minVal, maxVal)
    }

    constructor ()
      ensures Contents() == START
    {
      count, mean, m2, minVal, maxVal := 0, 0.0, 0.0, None, None;
    }

    method Update(value: real)
      modifies this
      ensures Contents() == Updated(old(Contents()), value)
    {
      count := count + 1;
      var delta := value - mean;
      mean := mean + delta / count as real;
      var delta2 := value - mean;
      m2 := m2 + delta * delta2;
      minVal := Some(Lesser(minVal, value));
      maxVal := Some(Greater(maxVal, value));
    }
  }

  // ----- The batch formulas

  function Total(s: seq<real>): real {
    if s == [] then 0.0 else Total(s[..|s| - 1]) + s[|s| - 1]
  }

  function Square(x: real): real {
    x * x
  }

  function Squares(s: seq<real>): real {
    if s == [] then 0.0 else Squares(s[..|s| - 1]) + Square(s[|s| - 1])
  }

  /** The sum of the squared deviations from `m`. */
  function Deviations(s: seq<real>, m: real): real {
    if s == [] then 0.0 else Deviations(s[..|s| - 1], m) + Square(s[|s| - 1] - m)
  }

  /** `n` times `a`, by addition. */
  function Scale(n: nat, a: real): real {
    if n == 0 then 0.0 else Scale(n - 1, a) + a
  }

  lemma OneMore(n: real, a: real)
    ensures (n + 1.0) * a == n * a + a
  {
  }

  lemma {:induction false} ScaleIsProduct(n: nat, a: real)
    ensures Scale(n, a) == n as real * a
  {
    if n > 0 {
      ScaleIsProduct(n - 1, a);
      OneMore((n - 1) as real, a);
      assert (n - 1) as real + 1.0 == n as real;
    }
  }

  lemma ExpandStep(d: real, q: real, p: real, n: real, x: real, m: real)
    requires d == q - 2.0 * p + n
    ensures d + Square(x - m) == (q + Square(x)) - 2.0 * (p + m * x) + (n + Square(m))
  {
  }

  lemma ProductOfSum(m: real, a: real, b: real)
    ensures m * (a + b) == m * a + m * b
  {
  }

  lemma {:induction false} DeviationsExpand(s: seq<real>, m: real)
    ensures Deviations(s, m) == Squares(s) - 2.0 * (m * Total(s)) + Scale(|s|, Square(m))
  {
    if s != [] {
      var init, x := s[..|s| - 1], s[|s| - 1];
      DeviationsExpand(init, m);
      ProductOfSum(m, Total(init), x);
      ExpandStep(Deviations(init, m), Squares(init), m * Total(init), Scale(|init|, Square(m)), x, m);
    }
  }

  // ----- The recurrence computes the batch formulas

  /** What the recurrence keeps: the mean times the count is the total, and `m2` is the squares less their share. */
  predicate Tracks(s: Stats, samples: seq<real>) {
    && s.count == |samples|
    && Scale(s.count, s.mean) == Total(samples)
    && s.m2 == Squares(samples) - Scale(s.count, Square(s.mean))
  }

  lemma MeanStep(n: nat, mean: real, value: real)
    ensures Scale(n + 1, mean + (value - mean) / (n + 1) as real) == Scale(n, mean) + value
  {
    var k := (n + 1) as real;
    assert k * ((value - mean) / k) == value - mean;
    ScaleIsProduct(n + 1, mean + (value - mean) / k);
    ScaleIsProduct(n + 1, mean);
  }

  /** One step of the recurrence, from `n` samples of mean `mean` to one more, of mean `next`. */
  lemma RecurrenceStep(n: real, mean: real, next: real, value: real)
    requires (n + 1.0) * next == n * mean + value
    ensures (value - mean) * (value - next) == Square(value) - (n + 1.0) * Square(next) + n * Square(mean)
  {
    calc {
      (value - mean) * (value - next);
      value * value - value * next - mean * value + mean * next;
      value * value - ((n + 1.0) * next - n * mean) * next - mean * ((n + 1.0) * next - n * mean) + mean * next;
      value * value - (n + 1.0) * (next * next) + n * (mean * mean);
    }
  }

  lemma ScaledProducts(n: nat, a: real)
    ensures Scale(n, a) == n as real * a && Scale(n + 1, a) == (n as real + 1.0) * a
    ensures Scale(n, Square(a)) == n as real * Square(a) && Scale(n + 1, Square(a)) == (n as real + 1.0) * Square(a)
  {
    assert (n + 1) as real == n as real + 1.0;
    ScaleIsProduct(n, a);
    ScaleIsProduct(n + 1, a);
    ScaleIsProduct(n, Square(a));
    ScaleIsProduct(n + 1, Square(a));
  }

  lemma SquaresStep(n: nat, mean: real, next: real, value: real)
    requires Scale(n + 1, next) == Scale(n, mean) + value
    ensures (value - mean) * (value - next) == Square(value) - Scale(n + 1, Square(next)) + Scale(n, Square(mean))
  {
    ScaledProducts(n, next);
    ScaledProducts(n, mean);
    RecurrenceStep(n as real, mean, next, value);
  }

  lemma {:induction false} AfterTracks(samples: seq<real>)
    ensures Tracks(After(samples), samples)
  {
    if samples != [] {
      var init, value := samples[..|samples| - 1], samples[|samples| - 1];
      AfterTracks(init);
      UpdateTracks(After(init), init, samples, value);
    }
  }

  lemma UpdateTracks(s: Stats, init: seq<real>, samples: seq<real>, value: real)
    requires Tracks(s, init) && samples != [] && samples[..|samples| - 1] == init && samples[|samples| - 1] == value
    ensures Tracks(Updated(s, value), samples)
  {
    MeanStep(s.count, s.mean, value);
    SquaresStep(s.count, s.mean, Updated(s, value).mean, value);
  }

  lemma DeviationsFromMean(n: nat, m: real, t: real)
    requires Scale(n, m) == t
    ensures m * t == Scale(n, Square(m))
  {
    ScaleIsProduct(n, m);
    ScaleIsProduct(n, Square(m));
    assert m * (n as real * m) == n as real * (m * m);
  }

  lemma TracksIsBatch(s: Stats, samples: seq<real>)
    requires Tracks(s, samples)
    ensures s.m2 == Deviations(samples, s.mean)
  {
    DeviationsExpand(samples, s.mean);
    DeviationsFromMean(s.count, s.mean, Total(samples));
  }

  /** After any samples: the mean is their mean, and `m2` the sum of their squared deviations from it. */
  lemma WelfordIsBatch(samples: seq<real>)
    ensures After(samples).count == |samples|
    ensures Scale(|samples|, After(samples).mean) == Total(samples)
    ensures After(samples).m2 == Deviations(samples, After(samples).mean)
  {
    AfterTracks(samples);
    TracksIsBatch(After(samples), samples);
  }

  lemma SquareNonNegative(x: real)
    ensures Square(x) >= 0.0
  {
  }

  lemma {:induction false} DeviationsNonNegative(s: seq<real>, m: real)
    ensures Deviations(s, m) >= 0.0
  {
    if s != [] {
      DeviationsNonNegative(s[..|s| - 1], m);
      SquareNonNegative(s[|s| - 1] - m);
    }
  }

  /** `m2` is never negative, so the square root in `std` is defined. */
  lemma VarianceIsDefined(samples: seq<real>)
    ensures After(samples).m2 >= 0.0
  {
    WelfordIsBatch(samples);
    DeviationsNonNegative(samples, After(samples).mean);
  }

  // ----- Minimum, mean, maximum

  /** The extremes are samples, and bound every sample. */
  predicate Bounds(s: Stats, samples: seq<real>) {
    && (samples == [] ==> s.minVal == None && s.maxVal == None)
    && (samples != [] ==>
      && s.minVal.Some? && s.maxVal.Some? && s.minVal.value in samples && s.maxVal.value in samples
      && forall i :: 0 <= i < |samples| ==> s.minVal.value <= samples[i] <= s.maxVal.value)
  }

  lemma {:induction false} ExtremesAreSamples(samples: seq<real>)
    ensures Bounds(After(samples), samples)
  {
    if samples != [] {
      var init, value := samples[..|samples| - 1], samples[|samples| - 1];
      assert samples == init + [value];
      ExtremesAreSamples(init);
    }
  }

  lemma {:induction false} TotalBetween(s: seq<real>, lo: real, hi: real)
    requires forall i :: 0 <= i < |s| ==> lo <= s[i] <= hi
    ensures Scale(|s|, lo) <= Total(s) <= Scale(|s|, hi)
  {
    if s != [] {
      TotalBetween(s[..|s| - 1], lo, hi);
    }
  }

  lemma {:induction false} ScaleIsMonotone(n: nat, a: real, b: real)
    requires a < b && n > 0
    ensures Scale(n, a) < Scale(n, b)
  {
    if n > 1 {
      ScaleIsMonotone(n - 1, a, b);
    }
  }

  lemma MeanIsBounded(s: Stats, samples: seq<real>)
    requires samples != [] && Tracks(s, samples) && Bounds(s, samples)
    ensures s.minVal.value <= s.mean <= s.maxVal.value
  {
    TotalBetween(samples, s.minVal.value, s.maxVal.value);
    if s.mean < s.minVal.value {
      ScaleIsMonotone(|samples|, s.mean, s.minVal.value);
    }
    if s.maxVal.value < s.mean {
      ScaleIsMonotone(|samples|, s.maxVal.value, s.mean);
    }
  }

  lemma MeanBetweenExtremes(samples: seq<real>)
    requires samples != []
    ensures After(samples).minVal.Some? && After(samples).maxVal.Some?
    ensures After(samples).minVal.value <= After(samples).mean <= After(samples).maxVal.value
  {
    AfterTracks(samples);
    ExtremesAreSamples(samples);
    MeanIsBounded(After(samples), samples);
  }

  // ----- Order does not matter

  lemma {:induction false} TotalsAppend(a: seq<real>, b: seq<real>)
    ensures Total(a + b) == Total(a) + Total(b) && Squares(a + b) == Squares(a) + Squares(b)
  {
    if b == [] {
      assert a + b == a;
    } else {
      assert (a + b)[..|a + b| - 1] == a + b[..|b| - 1];
      TotalsAppend(a, b[..|b| - 1]);
    }
  }

  lemma TotalsWithout(before: seq<real>, x: real, after: seq<real>)
    ensures Total(before + ([x] + after)) == Total(before + after) + x
    ensures Squares(before + ([x] + after)) == Squares(before + after) + Square(x)
    ensures multiset(before + ([x] + after)) == multiset(before + after) + multiset{x}
  {
    TotalsAppend(before, [x] + after);
    TotalsAppend([x], after);
    TotalsAppend(before, after);
  }

  lemma MultisetWithout(a: seq<real>, rest: seq<real>, x: real, before: seq<real>, after: seq<real>)
    requires multiset(a) == multiset(before + after) + multiset{x} && a == rest + [x]
    ensures multiset(rest) == multiset(before + after)
  {
    assert multiset(a) == multiset(rest) + multiset{x};
    assert multiset(rest) == multiset(a) - multiset{x};
  }

  lemma Around(b: seq<real>, x: real) returns (before: seq<real>, after: seq<real>)
    requires x in multiset(b)
    ensures b == before + ([x] + after)
  {
    var i :| 0 <= i < |b| && b[i] == x;
    before, after := b[..i], b[i + 1..];
  }

  lemma {:induction false} TotalsPermute(a: seq<real>, b: seq<real>)
    requires multiset(a) == multiset(b)
    ensures Total(a) == Total(b) && Squares(a) == Squares(b)
  {
    if a == [] {
      assert |multiset(b)| == 0;
    } else {
      var rest, x := a[..|a| - 1], a[|a| - 1];
      assert a == rest + [x] && x in multiset(a);
      var before, after := Around(b, x);
      TotalsWithout(before, x, after);
      MultisetWithout(a, rest, x, before, after);
      TotalsPermute(rest, before + after);
    }
  }

  lemma SameScale(n: nat, a: real, b: real)
    requires n > 0 && Scale(n, a) == Scale(n, b)
    ensures a == b
  {
    if a < b {
      ScaleIsMonotone(n, a, b);
    } else if b < a {
      ScaleIsMonotone(n, b, a);
    }
  }

  lemma SameTotalsSameStats(s: Stats, t: Stats, a: seq<real>, b: seq<real>)
    requires Tracks(s, a) && Tracks(t, b) && |a| == |b| && Total(a) == Total(b) && Squares(a) == Squares(b)
    requires a == [] ==> s.mean == t.mean
    ensures s.count == t.count && s.mean == t.mean && s.m2 == t.m2
  {
    if a != [] {
      SameScale(|a|, s.mean, t.mean);
    }
  }

  /** Count, mean and `m2` depend only on which samples there were, not on their order. */
  lemma {:induction false} OrderDoesNotMatter(a: seq<real>, b: seq<real>)
    requires multiset(a) == multiset(b)
    ensures After(a).count == After(b).count && After(a).mean == After(b).mean && After(a).m2 == After(b).m2
  {
    assert |a| == |multiset(a)| && |b| == |multiset(b)|;
    TotalsPermute(a, b);
    AfterTracks(a);
    AfterTracks(b);
    SameTotalsSameStats(After(a), After(b), a, b);
  }
}
