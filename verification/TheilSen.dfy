/** The Theil-Sen estimator (crates/usage-daemon/src/forecast.rs): the median of all pairwise
    slopes, the median intercept, the median residual, and the guards around them. Percentages are
    reals, so floating-point rounding is not modelled. */
module TheilSen {
  import opened ForecastSamples
  import opened Sequences
  import opened Wrappers

  const MIN_SAMPLES := 3
  const MIN_SPAN := 15 * 60 * 1000
  const MIN_RATE := 0.01
  const MAX_RESIDUAL := 8.0

  datatype RateEstimate = RateEstimate(rate: real, residual: real, span: int)

  // ----- The median -----

  function Insert(x: real, s: seq<real>): seq<real> {
    if s == [] || s[|s| - 1] <= x then s + [x] else Insert(x, s[..|s| - 1]) + [s[|s| - 1]]
  }

  function Sorted(values: seq<real>): (r: seq<real>)
    ensures |r| == |values|
  {
    if values == [] then [] else InsertLength(values[|values| - 1], Sorted(values[..|values| - 1]));
                                 Insert(values[|values| - 1], Sorted(values[..|values| - 1]))
  }

  lemma {:induction false} InsertLength(x: real, s: seq<real>)
    ensures |Insert(x, s)| == |s| + 1
  {
    if s != [] && s[|s| - 1] > x {
      InsertLength(x, s[..|s| - 1]);
    }
  }

  function Median(values: seq<real>): real
    requires values != []
  {
    var sorted, middle := Sorted(values), |values| / 2;
    if |values| % 2 == 0 then (sorted[middle - 1] + sorted[middle]) / 2.0 else sorted[middle]
  }

  predicate Ascending(s: seq<real>) {
    forall i, j :: 0 <= i < j < |s| ==> s[i] <= s[j]
  }

  /** How many values lie between `low` and `high`. */
  function Within(s: seq<real>, low: real, high: real): (count: nat)
    ensures count <= |s|
  {
    if s == [] then 0 else Within(s[..|s| - 1], low, high) + if low <= s[|s| - 1] <= high then 1 else 0
  }

  lemma {:induction false} InsertKeepsOrder(x: real, s: seq<real>)
    requires Ascending(s)
    ensures Ascending(Insert(x, s)) && (forall y :: y in Insert(x, s) ==> y == x || y in s)
  {
    if s != [] && s[|s| - 1] > x {
      var rest, last := s[..|s| - 1], s[|s| - 1];
      InsertKeepsOrder(x, rest);
      var r := Insert(x, rest);
      forall i | 0 <= i < |r|
        ensures r[i] <= last
      {
        assert r[i] == x || r[i] in rest;
      }
    }
  }

  lemma {:induction false} InsertWithin(x: real, s: seq<real>, low: real, high: real)
    ensures Within(Insert(x, s), low, high) == Within(s, low, high) + if low <= x <= high then 1 else 0
  {
    if s != [] && s[|s| - 1] > x {
      var rest, last := s[..|s| - 1], s[|s| - 1];
      InsertWithin(x, rest, low, high);
      assert (Insert(x, rest) + [last])[..|Insert(x, rest)|] == Insert(x, rest);
    } else {
      assert (s + [x])[..|s|] == s;
    }
  }

  lemma {:induction false} SortedShape(values: seq<real>, low: real, high: real)
    ensures Ascending(Sorted(values)) && Within(Sorted(values), low, high) == Within(values, low, high)
  {
    if values != [] {
      SortedShape(values[..|values| - 1], low, high);
      InsertKeepsOrder(values[|values| - 1], Sorted(values[..|values| - 1]));
      InsertWithin(values[|values| - 1], Sorted(values[..|values| - 1]), low, high);
    }
  }

  /** Only positions between `from` and `to` can count. */
  lemma {:induction false} WithinBetween(s: seq<real>, low: real, high: real, from: nat, to: nat)
    requires from <= to <= |s|
    requires forall i :: 0 <= i < |s| && !(from <= i < to) ==> !(low <= s[i] <= high)
    ensures Within(s, low, high) <= to - from
  {
    if s != [] {
      var rest := s[..|s| - 1];
      WithinBetween(rest, low, high, if from < |s| then from else from - 1, if to < |s| then to else to - 1);
    }
  }

  /** The median's breakdown bound: where more than half of the values are, the median is too. */
  lemma MedianFollowsMajority(values: seq<real>, low: real, high: real)
    requires 2 * Within(values, low, high) > |values|
    ensures values != [] && low <= Median(values) <= high
  {
    SortedShape(values, low, high);
    hide Sorted;
    hide Within;
    hide Ascending;
    var s, n := Sorted(values), |values|;
    MiddleIsWithin(s, low, high, n / 2);
    MiddleIsWithin(s, low, high, (n - 1) / 2);
    if n % 2 == 0 {
      assert n / 2 - 1 == (n - 1) / 2;
    }
  }

  lemma MiddleIsWithin(s: seq<real>, low: real, high: real, k: nat)
    requires Ascending(s) && 2 * Within(s, low, high) > |s| && (k == |s| / 2 || k == (|s| - 1) / 2)
    ensures k < |s| && low <= s[k] <= high
  {
    if s[k] < low {
      WithinBetween(s, low, high, k + 1, |s|);
    } else if s[k] > high {
      WithinBetween(s, low, high, 0, k);
    }
  }

  function Rescale(x: real, k: real, b: real): real {
    k * x + b
  }

  function Affine(values: seq<real>, k: real, b: real): (r: seq<real>)
    ensures |r| == |values|
  {
    seq(|values|, i requires 0 <= i < |values| => Rescale(values[i], k, b))
  }

  lemma RescaleKeepsOrder(x: real, y: real, k: real, b: real)
    requires k > 0.0
    ensures x <= y <==> Rescale(x, k, b) <= Rescale(y, k, b)
  {
    if x <= y {
      assert k * (y - x) >= 0.0;
    } else {
      assert k * (x - y) > 0.0;
    }
  }

  lemma AffineAppend(s: seq<real>, x: real, k: real, b: real)
    ensures Affine(s + [x], k, b) == Affine(s, k, b) + [Rescale(x, k, b)]
  {
    hide Rescale;
  }

  lemma {:induction false} InsertAffine(x: real, s: seq<real>, k: real, b: real)
    requires k > 0.0
    ensures Insert(Rescale(x, k, b), Affine(s, k, b)) == Affine(Insert(x, s), k, b)
  {
    hide Rescale;
    hide Affine;
    if s == [] {
      AffineAppend(s, x, k, b);
    } else {
      var rest, last := s[..|s| - 1], s[|s| - 1];
      assert s == rest + [last];
      AffineAppend(rest, last, k, b);
      RescaleKeepsOrder(last, x, k, b);
      var affine := Affine(rest, k, b);
      assert (affine + [Rescale(last, k, b)])[..|affine|] == affine;
      if last <= x {
        AffineAppend(s, x, k, b);
      } else {
        InsertAffine(x, rest, k, b);
        AffineAppend(Insert(x, rest), last, k, b);
      }
    }
  }

  lemma {:induction false} SortedAffine(values: seq<real>, k: real, b: real)
    requires k > 0.0
    ensures Sorted(Affine(values, k, b)) == Affine(Sorted(values), k, b)
  {
    if values != [] {
      var rest, last := values[..|values| - 1], values[|values| - 1];
      assert values == rest + [last];
      AffineAppend(rest, last, k, b);
      hide Rescale;
      hide Affine;
      hide Insert;
      SortedAffine(rest, k, b);
      InsertAffine(last, Sorted(rest), k, b);
      var affine := Affine(rest, k, b);
      assert (affine + [Rescale(last, k, b)])[..|affine|] == affine;
    }
  }

  lemma MiddleRescaled(x: real, y: real, k: real, b: real)
    ensures (Rescale(x, k, b) + Rescale(y, k, b)) / 2.0 == Rescale((x + y) / 2.0, k, b)
  {
  }

  /** Rescaling the values rescales the median. */
  lemma MedianAffine(values: seq<real>, k: real, b: real)
    requires values != [] && k > 0.0
    ensures Median(Affine(values, k, b)) == Rescale(Median(values), k, b)
  {
    SortedAffine(values, k, b);
    hide Rescale;
    hide Sorted;
    var s, middle := Sorted(values), |values| / 2;
    if |values| % 2 == 0 {
      MiddleRescaled(s[middle - 1], s[middle], k, b);
    }
  }

  /** The values with their signs changed, back to front. */
  function Mirrored(s: seq<real>): (r: seq<real>)
    ensures |r| == |s|
  {
    seq(|s|, i requires 0 <= i < |s| => -s[|s| - 1 - i])
  }

  lemma MirroredLast(s: seq<real>, x: real)
    ensures Mirrored(s + [x]) == [-x] + Mirrored(s)
  {
  }

  lemma InsertAtEnd(x: real, s: seq<real>, last: real)
    ensures Insert(x, s + [last]) == if last <= x then s + [last] + [x] else Insert(x, s) + [last]
  {
    assert (s + [last])[..|s|] == s;
  }

  lemma AscendingWithoutLast(s: seq<real>, last: real)
    requires Ascending(s + [last])
    ensures Ascending(s) && forall i :: 0 <= i < |s| ==> s[i] <= last
  {
    var all := s + [last];
    assert forall i :: 0 <= i < |s| ==> s[i] == all[i] && all[|s|] == last;
  }

  /** Inserting behind the first of some ascending values, or in front of all of them. */
  lemma {:induction false} InsertAtFront(x: real, a: real, s: seq<real>)
    requires Ascending([a] + s)
    ensures Insert(x, [a] + s) == if x < a then [x] + ([a] + s) else [a] + Insert(x, s)
  {
    if s == [] {
      InsertAtEnd(x, [], a);
      assert [] + [a] == [a] && [a] + [] == [a];
    } else {
      var rest, last := s[..|s| - 1], s[|s| - 1];
      assert s == rest + [last] && [a] + s == ([a] + rest) + [last];
      AscendingWithoutLast([a] + rest, last);
      assert ([a] + rest)[0] == a <= last;
      hide Insert;
      hide Ascending;
      InsertAtFront(x, a, rest);
      InsertAtEnd(x, [a] + rest, last);
      InsertAtEnd(x, rest, last);
      if last <= x {
        Associative([a], s, [x]);
      } else if x < a {
        Associative([x], [a] + rest, [last]);
      } else {
        Associative([a], Insert(x, rest), [last]);
      }
    }
  }

  /** A greatest value goes to the end. */
  lemma InsertGreatest(x: real, s: seq<real>)
    requires forall i :: 0 <= i < |s| ==> s[i] <= x
    ensures Insert(x, s) == s + [x]
  {
  }

  /** Into the mirrored values, counted from their front. */
  lemma InsertIntoMirrored(x: real, s: seq<real>, last: real)
    requires Ascending(s + [last])
    ensures Insert(-x, Mirrored(s + [last]))
            == if x > last then [-x] + Mirrored(s + [last]) else [-last] + Insert(-x, Mirrored(s))
  {
    MirroredIsAscending(s + [last]);
    hide *;
    MirroredLast(s, last);
    InsertAtFront(-x, -last, Mirrored(s));
  }

  lemma MirroredBehind(x: real, s: seq<real>, last: real)
    requires Ascending(s + [last]) && x > last
    ensures Insert(-x, Mirrored(s + [last])) == Mirrored(Insert(x, s + [last]))
  {
    hide *;
    InsertIntoMirrored(x, s, last);
    InsertAtEnd(x, s, last);
    MirroredLast(s + [last], x);
  }

  lemma MirroredBefore(x: real, s: seq<real>, last: real)
    requires Ascending(s + [last]) && x < last
    requires Insert(-x, Mirrored(s)) == Mirrored(Insert(x, s))
    ensures Insert(-x, Mirrored(s + [last])) == Mirrored(Insert(x, s + [last]))
  {
    hide *;
    InsertIntoMirrored(x, s, last);
    InsertAtEnd(x, s, last);
    MirroredLast(Insert(x, s), last);
  }

  lemma InsertLastAgain(s: seq<real>, last: real)
    requires Ascending(s + [last])
    ensures Insert(last, s) == s + [last] && Insert(last, s + [last]) == s + [last] + [last]
  {
    AscendingWithoutLast(s, last);
    InsertGreatest(last, s);
    InsertAtEnd(last, s, last);
  }

  lemma MirroredBeside(s: seq<real>, last: real)
    requires Ascending(s + [last])
    requires Insert(-last, Mirrored(s)) == Mirrored(Insert(last, s))
    ensures Insert(-last, Mirrored(s + [last])) == Mirrored(Insert(last, s + [last]))
  {
    hide *;
    InsertLastAgain(s, last);
    InsertIntoMirrored(last, s, last);
    MirroredLast(s + [last], last);
  }

  lemma {:induction false} InsertMirrored(x: real, s: seq<real>)
    requires Ascending(s)
    ensures Insert(-x, Mirrored(s)) == Mirrored(Insert(x, s))
  {
    if s == [] {
      assert Mirrored([x]) == [-x];
    } else {
      var rest, last := s[..|s| - 1], s[|s| - 1];
      assert s == rest + [last];
      AscendingWithoutLast(rest, last);
      hide *;
      InsertMirrored(x, rest);
      if x > last {
        MirroredBehind(x, rest, last);
      } else if x < last {
        MirroredBefore(x, rest, last);
      } else {
        MirroredBeside(rest, last);
      }
    }
  }

  lemma MirroredIsAscending(s: seq<real>)
    requires Ascending(s)
    ensures Ascending(Mirrored(s))
  {
  }

  function Negated(values: seq<real>): (r: seq<real>)
    ensures |r| == |values|
  {
    seq(|values|, i requires 0 <= i < |values| => -values[i])
  }

  lemma {:induction false} SortedMirrored(values: seq<real>)
    ensures Sorted(Negated(values)) == Mirrored(Sorted(values)) && Ascending(Sorted(values))
  {
    if values != [] {
      var rest, last := values[..|values| - 1], values[|values| - 1];
      assert Negated(values)[..|values| - 1] == Negated(rest) && Negated(values)[|values| - 1] == -last;
      hide Insert;
      hide Ascending;
      hide Mirrored;
      hide Negated;
      SortedMirrored(rest);
      InsertMirrored(last, Sorted(rest));
      InsertKeepsOrder(last, Sorted(rest));
    }
  }

  /** The median prefers neither side: with all signs changed it changes its sign, so that of an even number
      of values it lies midway between the middle two. */
  lemma MedianIsSymmetric(values: seq<real>)
    requires values != []
    ensures Median(Negated(values)) == -Median(values)
  {
    SortedMirrored(values);
    hide Sorted;
    hide Ascending;
    hide Negated;
  }

  // ----- The estimate -----

  function Hours(ms: int): real {
    ms as real / 3600000.0
  }

  function Slope(left: Observation, right: Observation): real
    requires left.at < right.at
  {
    (right.percent - left.percent) / Hours(right.at - left.at)
  }

  /** The slopes from sample `i` to each later sample before `n`. */
  function SlopesFrom(samples: seq<Observation>, i: nat, n: nat): seq<real>
    requires i < n <= |samples|
    decreases n
  {
    if n == i + 1 then []
    else if samples[i].at < samples[n - 1].at
    then SlopesFrom(samples, i, n - 1) + [Slope(samples[i], samples[n - 1])]
    else SlopesFrom(samples, i, n - 1)
  }

  /** The slopes of all pairs whose earlier sample is before `n`. */
  function Slopes(samples: seq<Observation>, n: nat): seq<real>
    requires n <= |samples|
  {
    if n == 0 then [] else Slopes(samples, n - 1) + SlopesFrom(samples, n - 1, |samples|)
  }

  function Intercepts(samples: seq<Observation>, rate: real): (r: seq<real>)
    ensures |r| == |samples|
  {
    seq(|samples|, i requires 0 <= i < |samples| =>
      samples[i].percent - rate * Hours(samples[i].at - samples[0].at))
  }

  /** The line's value after so many hours. */
  function At(rate: real, intercept: real, hours: real): real {
    intercept + rate * hours
  }

  function Abs(x: real): real {
    if x < 0.0 then -x else x
  }

  function Residuals(samples: seq<Observation>, rate: real, intercept: real): (r: seq<real>)
    ensures |r| == |samples|
  {
    seq(|samples|, i requires 0 <= i < |samples| =>
      Abs(samples[i].percent - At(rate, intercept, Hours(samples[i].at - samples[0].at))))
  }

  datatype Line = Line(rate: real, intercept: real, residual: real)

  /** The fitted line, before any guard. */
  function Fit(samples: seq<Observation>): Option<Line> {
    var slopes := Slopes(samples, |samples|);
    if slopes == [] then None
    else
      assert samples != [];
      var rate := Median(slopes);
      var intercept := Median(Intercepts(samples, rate));
      Some(Line(rate, intercept, Median(Residuals(samples, rate, intercept))))
  }

  function Estimate(samples: seq<Observation>): Option<RateEstimate> {
    if |samples| < MIN_SAMPLES then None
    else
      var span := samples[|samples| - 1].at - samples[0].at;
      var fit := Fit(RegressionSamples(samples));
      if span < MIN_SPAN || fit.None? || fit.value.rate < MIN_RATE || fit.value.residual > MAX_RESIDUAL then None
      else Some(RateEstimate(fit.value.rate, fit.value.residual, span))
  }

  /** The nested loop over pairs. */
  method PairwiseSlopes(samples: seq<Observation>) returns (slopes: seq<real>)
    ensures slopes == Slopes(samples, |samples|)
  {
    slopes := [];
    for index := 0 to |samples|
      invariant slopes == Slopes(samples, index)
    {
      for other := index + 1 to |samples|
        invariant slopes == Slopes(samples, index) + SlopesFrom(samples, index, other)
      {
        var hours := Hours(samples[other].at - samples[index].at);
        if hours > 0.0 {
          slopes := slopes + [(samples[other].percent - samples[index].percent) / hours];
        }
      }
    }
  }

  /** `estimate_rate`, with its early returns. */
  method EstimateRate(samples: seq<Observation>) returns (estimate: Option<RateEstimate>)
    ensures estimate == Estimate(samples)
  {
    if samples == [] {
      return None;
    }
    var span := samples[|samples| - 1].at - samples[0].at;
    if |samples| < MIN_SAMPLES || span < MIN_SPAN {
      return None;
    }
    var regression := RegressionSamples(samples);
    var slopes := PairwiseSlopes(regression);
    if slopes == [] {
      return None;
    }
    var rate := Median(slopes);
    if rate < MIN_RATE {
      return None;
    }
    var intercept := Median(Intercepts(regression, rate));
    var residual := Median(Residuals(regression, rate, intercept));
    if residual > MAX_RESIDUAL {
      return None;
    }
    estimate := Some(RateEstimate(rate, residual, span));
  }

  /** When there is an estimate, and what it says: at least three samples over at least a quarter of an hour,
      a fitted rate of at least 0.01 percent per hour, and a residual of at most eight percent. */
  lemma EstimateExactly(samples: seq<Observation>)
    ensures var e, fit := Estimate(samples), Fit(RegressionSamples(samples));
      && (e.Some? <==> |samples| >= 3 && samples[|samples| - 1].at - samples[0].at >= 900_000
                       && fit.Some? && fit.value.rate >= 0.01 && fit.value.residual <= 8.0)
      && (e.Some? ==> e.value == RateEstimate(fit.value.rate, fit.value.residual, samples[|samples| - 1].at - samples[0].at))
  {
    hide Fit;
    hide RegressionSamples;
  }

  /** A residual is how far a sample lies from the line, on either side of it. */
  lemma ResidualIsDistance(samples: seq<Observation>, rate: real, intercept: real, i: nat)
    requires i < |samples|
    ensures var (r, line) := (Residuals(samples, rate, intercept)[i], intercept + rate * Hours(samples[i].at - samples[0].at));
            r >= 0.0 && (samples[i].percent == line + r || samples[i].percent == line - r)
  {
  }

  // ----- What the slopes are -----

  /** The elapsed time of a sample since the first one, in hours. */
  function Elapsed(samples: seq<Observation>, i: nat): real
    requires i < |samples|
  {
    Hours(samples[i].at - samples[0].at)
  }

  lemma {:induction false} SlopesFromLength(samples: seq<Observation>, i: nat, n: nat)
    requires i < n <= |samples| && StrictlyOrdered(samples)
    ensures |SlopesFrom(samples, i, n)| == n - i - 1
  {
    if n > i + 1 {
      SlopesFromLength(samples, i, n - 1);
    }
  }

  /** Twice the number of pairs of `n` things whose first one is among the first `m`. */
  function Pairs(n: int, m: int): int {
    m * (2 * n - m - 1)
  }

  lemma PairSum(n: int, m: int)
    ensures Pairs(n, m - 1) + 2 * (n - m) == Pairs(n, m) && Pairs(n, 0) == 0
    ensures Pairs(n, n) == n * (n - 1)
  {
  }

  /** Every pair of samples contributes one slope. */
  lemma {:induction false} SlopeCount(samples: seq<Observation>, n: nat)
    requires n <= |samples| && StrictlyOrdered(samples)
    ensures 2 * |Slopes(samples, n)| == Pairs(|samples|, n)
  {
    hide Pairs;
    PairSum(|samples|, n);
    if n > 0 {
      SlopeCount(samples, n - 1);
      SlopesFromLength(samples, n - 1, |samples|);
    }
  }

  lemma {:induction false} WithinSplits(a: seq<real>, b: seq<real>, low: real, high: real)
    ensures Within(a + b, low, high) == Within(a, low, high) + Within(b, low, high)
  {
    if b == [] {
      assert a + b == a;
    } else {
      WithinSplits(a, b[..|b| - 1], low, high);
      assert (a + b)[..|a + b| - 1] == a + b[..|b| - 1];
    }
  }

  /** How many entries of `mask` before `n` are set. */
  function Marked(mask: seq<bool>, n: nat): (count: nat)
    requires n <= |mask|
    ensures count <= n
  {
    if n == 0 then 0 else Marked(mask, n - 1) + if mask[n - 1] then 1 else 0
  }

  lemma {:induction false} MarkedGrows(mask: seq<bool>, m: nat, n: nat)
    requires m <= n <= |mask|
    ensures Marked(mask, m) <= Marked(mask, n)
  {
    if m < n {
      MarkedGrows(mask, m, n - 1);
    }
  }

  /** All slopes between marked samples lie in the range. */
  ghost predicate MarkedSlopesWithin(samples: seq<Observation>, mask: seq<bool>, low: real, high: real)
    requires |mask| == |samples| && StrictlyOrdered(samples)
  {
    forall i, j :: 0 <= i < j < |samples| && mask[i] && mask[j] ==> low <= Slope(samples[i], samples[j]) <= high
  }

  lemma {:induction false} MarkedSlopesFrom(samples: seq<Observation>, mask: seq<bool>, i: nat, n: nat, low: real,
                                            high: real)
    requires i < n <= |samples| == |mask| && StrictlyOrdered(samples)
    requires mask[i] && MarkedSlopesWithin(samples, mask, low, high)
    ensures Within(SlopesFrom(samples, i, n), low, high) >= Marked(mask, n) - Marked(mask, i + 1)
  {
    if n > i + 1 {
      MarkedSlopesFrom(samples, mask, i, n - 1, low, high);
      var earlier, slope := SlopesFrom(samples, i, n - 1), Slope(samples[i], samples[n - 1]);
      assert (earlier + [slope])[..|earlier|] == earlier;
      assert mask[n - 1] ==> low <= slope <= high;
    }
  }

  /** A set of `g` samples contributes at least `g * (g - 1) / 2` slopes. */
  lemma {:induction false} MarkedSlopes(samples: seq<Observation>, mask: seq<bool>, n: nat, low: real, high: real)
    requires n <= |samples| == |mask| && StrictlyOrdered(samples)
    requires MarkedSlopesWithin(samples, mask, low, high)
    ensures var g, p := Marked(mask, |mask|), Marked(mask, n);
            2 * Within(Slopes(samples, n), low, high) >= Pairs(g, p)
  {
    hide Pairs;
    hide MarkedSlopesWithin;
    PairSum(Marked(mask, |mask|), Marked(mask, n));
    if n > 0 {
      MarkedSlopes(samples, mask, n - 1, low, high);
      WithinSplits(Slopes(samples, n - 1), SlopesFrom(samples, n - 1, |samples|), low, high);
      if mask[n - 1] {
        MarkedSlopesFrom(samples, mask, n - 1, |samples|, low, high);
      }
    }
  }

  /** The pairs among `g` samples are more than half of the pairs among `n`. */
  predicate MostPairs(g: nat, n: nat) {
    2 * (g * (g - 1)) > n * (n - 1)
  }

  lemma EveryPairIsMost(n: nat)
    requires n >= 2
    ensures MostPairs(n, n)
  {
    assert n * (n - 1) > 0;
  }

  /** The estimator's breakdown bound: once the marked samples make up more than half of all pairs,
      the rate lies in any range that holds the slopes between them. */
  lemma RateFollowsMarkedSamples(samples: seq<Observation>, mask: seq<bool>, low: real, high: real)
    requires |samples| == |mask| && StrictlyOrdered(samples) && MarkedSlopesWithin(samples, mask, low, high)
    requires MostPairs(Marked(mask, |mask|), |samples|)
    ensures Fit(samples).Some? && low <= Fit(samples).value.rate <= high
  {
    hide MostPairs;
    hide Median;
    MarkedSlopesPrevail(samples, mask, low, high);
    hide Slopes;
    hide Within;
    hide MarkedSlopesWithin;
    MedianFollowsMajority(Slopes(samples, |samples|), low, high);
  }

  lemma MarkedSlopesPrevail(samples: seq<Observation>, mask: seq<bool>, low: real, high: real)
    requires |samples| == |mask| && StrictlyOrdered(samples) && MarkedSlopesWithin(samples, mask, low, high)
    requires MostPairs(Marked(mask, |mask|), |samples|)
    ensures var slopes := Slopes(samples, |samples|); 2 * Within(slopes, low, high) > |slopes|
  {
    hide MostPairs;
    hide Pairs;
    var g, n := Marked(mask, |mask|), |samples|;
    SlopeCount(samples, n);
    MarkedSlopes(samples, mask, n, low, high);
    hide Slopes;
    hide Within;
    hide MarkedSlopesWithin;
    MorePairs(|Slopes(samples, n)|, Within(Slopes(samples, n), low, high), g, n);
  }

  lemma MorePairs(all: nat, marked: nat, g: nat, n: nat)
    requires 2 * all == Pairs(n, n) && 2 * marked >= Pairs(g, g) && MostPairs(g, n)
    ensures 2 * marked > all
  {
    hide Pairs;
    PairSum(n, n);
    PairSum(g, g);
  }

  lemma {:induction false} AllMarked(n: nat)
    ensures var mask := seq(n, i => true); Marked(mask, n) == n
  {
    var mask := seq(n, i => true);
    for m := 0 to n
      invariant Marked(mask, m) == m
    {
    }
  }

  /** The rate lies between the least and the greatest pairwise slope. */
  lemma RateIsAmongTheSlopes(samples: seq<Observation>, low: real, high: real)
    requires |samples| >= 2 && StrictlyOrdered(samples)
    requires forall i, j :: 0 <= i < j < |samples| ==> low <= Slope(samples[i], samples[j]) <= high
    ensures Fit(samples).Some? && low <= Fit(samples).value.rate <= high
  {
    var n := |samples|;
    AllMarked(n);
    EveryPairIsMost(n);
    RateFollowsMarkedSamples(samples, seq(n, i => true), low, high);
  }

  // ----- Exact recovery -----

  ghost predicate OnLine(samples: seq<Observation>, mask: seq<bool>, rate: real, intercept: real)
    requires |mask| == |samples|
  {
    forall i :: 0 <= i < |samples| && mask[i] ==> samples[i].percent == At(rate, intercept, Elapsed(samples, i))
  }

  lemma SlopeOnLine(left: Observation, right: Observation, origin: int, rate: real, intercept: real)
    requires left.at < right.at
    requires left.percent == At(rate, intercept, Hours(left.at - origin))
    requires right.percent == At(rate, intercept, Hours(right.at - origin))
    ensures Slope(left, right) == rate
  {
    var hours := Hours(right.at - left.at);
    assert Hours(right.at - origin) - Hours(left.at - origin) == hours;
    assert right.percent - left.percent == rate * hours;
  }

  lemma {:induction false} MarkedValues(values: seq<real>, mask: seq<bool>, n: nat, v: real)
    requires n <= |values| == |mask|
    requires forall i :: 0 <= i < |values| && mask[i] ==> values[i] == v
    ensures Within(values[..n], v, v) >= Marked(mask, n)
  {
    if n > 0 {
      MarkedValues(values, mask, n - 1, v);
      assert values[..n][..n - 1] == values[..n - 1];
    }
  }

  lemma MarkedMedian(values: seq<real>, mask: seq<bool>, v: real)
    requires |values| == |mask| && 2 * Marked(mask, |mask|) > |mask|
    requires forall i :: 0 <= i < |values| && mask[i] ==> values[i] == v
    ensures values != [] && Median(values) == v
  {
    MarkedValues(values, mask, |mask|, v);
    assert values[..|mask|] == values;
    MedianFollowsMajority(values, v, v);
  }

  lemma ProductGrows(a: int, b: int, c: int)
    requires a <= b && 0 <= c
    ensures a * c <= b * c && c * a <= c * b
  {
    assert (b - a) * c >= 0;
  }

  lemma FewSamplesFewPairs(g: nat, n: nat)
    requires 2 * g <= n
    ensures !MostPairs(g, n)
  {
    if g > 0 {
      ProductGrows(2 * g, n, g - 1);
      ProductGrows(g - 1, n - 1, n);
      assert 2 * g * (g - 1) == 2 * (g * (g - 1));
    } else if n > 0 {
      ProductGrows(0, n, n - 1);
    }
  }

  lemma OnLineSlopes(samples: seq<Observation>, mask: seq<bool>, rate: real, intercept: real)
    requires |samples| == |mask| && StrictlyOrdered(samples) && OnLine(samples, mask, rate, intercept)
    ensures MarkedSlopesWithin(samples, mask, rate, rate)
  {
    hide Slope;
    hide At;
    forall i, j | 0 <= i < j < |samples| && mask[i] && mask[j]
      ensures rate <= Slope(samples[i], samples[j]) <= rate
    {
      SlopeOnLine(samples[i], samples[j], samples[0].at, rate, intercept);
    }
  }

  /** Outliers do not matter: when the samples on one line make up more than half of all pairs, the
      fit is exactly that line, with residual zero. */
  lemma LineIsRecovered(samples: seq<Observation>, mask: seq<bool>, rate: real, intercept: real)
    requires |samples| == |mask| && StrictlyOrdered(samples) && OnLine(samples, mask, rate, intercept)
    requires MostPairs(Marked(mask, |mask|), |samples|)
    ensures Fit(samples) == Some(Line(rate, intercept, 0.0))
  {
    OnLineSlopes(samples, mask, rate, intercept);
    RateFollowsMarkedSamples(samples, mask, rate, rate);
    hide MostPairs;
    if 2 * Marked(mask, |mask|) <= |mask| {
      FewSamplesFewPairs(Marked(mask, |mask|), |mask|);
    }
    hide *;
    MarkedMedian(Intercepts(samples, rate), mask, intercept) by {
      OnLineIntercepts(samples, mask, rate, intercept);
    }
    MarkedMedian(Residuals(samples, rate, intercept), mask, 0.0) by {
      OnLineResiduals(samples, mask, rate, intercept);
    }
    FitIs(samples, rate, intercept, 0.0);
  }

  lemma OnLineIntercepts(samples: seq<Observation>, mask: seq<bool>, rate: real, intercept: real)
    requires |samples| == |mask| && OnLine(samples, mask, rate, intercept)
    ensures forall i :: 0 <= i < |samples| && mask[i] ==> Intercepts(samples, rate)[i] == intercept
  {
  }

  lemma OnLineResiduals(samples: seq<Observation>, mask: seq<bool>, rate: real, intercept: real)
    requires |samples| == |mask| && OnLine(samples, mask, rate, intercept)
    ensures forall i :: 0 <= i < |samples| && mask[i] ==> Residuals(samples, rate, intercept)[i] == 0.0
  {
    hide At;
    forall i | 0 <= i < |samples| && mask[i]
      ensures Residuals(samples, rate, intercept)[i] == 0.0
    {
      assert samples[i].percent == At(rate, intercept, Elapsed(samples, i));
    }
  }

  lemma FitIs(samples: seq<Observation>, rate: real, intercept: real, residual: real)
    requires samples != [] && Fit(samples).Some? && Fit(samples).value.rate == rate
    requires Median(Intercepts(samples, rate)) == intercept && Median(Residuals(samples, rate, intercept)) == residual
    ensures Fit(samples) == Some(Line(rate, intercept, residual))
  {
    hide Slopes;
    hide Median;
    hide Intercepts;
    hide Residuals;
  }

  /** Steady use is estimated exactly, after sub-sampling and through all guards: the estimate is
      refused exactly when the rate is below the least one. */
  lemma SteadyUseIsEstimatedExactly(samples: seq<Observation>, rate: real, intercept: real)
    requires |samples| >= MIN_SAMPLES && StrictlyOrdered(samples)
    requires samples[|samples| - 1].at - samples[0].at >= MIN_SPAN
    requires forall i :: 0 <= i < |samples| ==> samples[i].percent == At(rate, intercept, Elapsed(samples, i))
    ensures Estimate(samples)
            == if rate < MIN_RATE then None
               else Some(RateEstimate(rate, 0.0, samples[|samples| - 1].at - samples[0].at))
  {
    var regression := RegressionSamples(samples);
    SubsamplingSpans(samples);
    var n := |regression|;
    AllMarked(n);
    EveryPairIsMost(n);
    hide MostPairs;
    hide At;
    hide Marked;
    hide StrictlyOrdered;
    forall i | 0 <= i < n
      ensures regression[i].percent == At(rate, intercept, Elapsed(regression, i))
    {
      assert regression[i] in samples;
    }
    hide Fit;
    hide RegressionSamples;
    LineIsRecovered(regression, seq(n, i => true), rate, intercept);
  }

  // ----- Equivariance -----

  /** The samples in other units (`k`), with a steady extra use (`b` per hour) and offset (`c`). */
  function Tilt(samples: seq<Observation>, k: real, b: real, c: real): (r: seq<Observation>)
    ensures |r| == |samples|
  {
    seq(|samples|, i requires 0 <= i < |samples| =>
      Observation(samples[i].at, k * samples[i].percent + b * Elapsed(samples, i) + c))
  }

  lemma SlopeTilted(samples: seq<Observation>, k: real, b: real, c: real, i: nat, j: nat)
    requires i < |samples| && j < |samples| && samples[i].at < samples[j].at
    ensures Slope(Tilt(samples, k, b, c)[i], Tilt(samples, k, b, c)[j]) == Rescale(Slope(samples[i], samples[j]), k, b)
  {
    var hours := Hours(samples[j].at - samples[i].at);
    var rise := samples[j].percent - samples[i].percent;
    assert Elapsed(samples, j) - Elapsed(samples, i) == hours;
    QuotientTilted(rise, hours, k, b);
    assert k * samples[j].percent + b * Elapsed(samples, j) + c - (k * samples[i].percent + b * Elapsed(samples, i) + c)
           == k * rise + b * hours;
  }

  lemma QuotientTilted(rise: real, hours: real, k: real, b: real)
    requires hours > 0.0
    ensures (k * rise + b * hours) / hours == k * (rise / hours) + b
  {
    var q := rise / hours;
    assert rise == q * hours;
    assert k * rise + b * hours == (k * q + b) * hours;
  }

  lemma AffineConcat(s: seq<real>, t: seq<real>, k: real, b: real)
    ensures Affine(s + t, k, b) == Affine(s, k, b) + Affine(t, k, b)
  {
    hide Rescale;
  }

  lemma {:induction false} SlopesFromTilted(samples: seq<Observation>, k: real, b: real, c: real, i: nat, n: nat)
    requires i < n <= |samples|
    ensures SlopesFrom(Tilt(samples, k, b, c), i, n) == Affine(SlopesFrom(samples, i, n), k, b)
    decreases n
  {
    hide Rescale;
    hide Slope;
    if n > i + 1 {
      SlopesFromTilted(samples, k, b, c, i, n - 1);
      if samples[i].at < samples[n - 1].at {
        SlopeTilted(samples, k, b, c, i, n - 1);
        AffineAppend(SlopesFrom(samples, i, n - 1), Slope(samples[i], samples[n - 1]), k, b);
      }
    }
  }

  lemma {:induction false} SlopesTilted(samples: seq<Observation>, k: real, b: real, c: real, n: nat)
    requires n <= |samples|
    ensures Slopes(Tilt(samples, k, b, c), n) == Affine(Slopes(samples, n), k, b)
  {
    hide Affine;
    if n > 0 {
      SlopesTilted(samples, k, b, c, n - 1);
      SlopesFromTilted(samples, k, b, c, n - 1, |samples|);
      AffineConcat(Slopes(samples, n - 1), SlopesFrom(samples, n - 1, |samples|), k, b);
    } else {
      EmptyAffine(k, b);
    }
  }

  lemma EmptyAffine(k: real, b: real)
    ensures Affine([], k, b) == []
  {
  }

  lemma InterceptTilted(percent: real, hours: real, rate: real, k: real, b: real, c: real)
    ensures k * percent + b * hours + c - (k * rate + b) * hours == k * (percent - rate * hours) + c
  {
  }

  lemma ResidualTilted(percent: real, hours: real, rate: real, intercept: real, k: real, b: real, c: real)
    requires k > 0.0
    ensures Abs(k * percent + b * hours + c - At(k * rate + b, k * intercept + c, hours))
            == k * Abs(percent - At(rate, intercept, hours))
  {
    var x := percent - At(rate, intercept, hours);
    assert k * percent + b * hours + c - At(k * rate + b, k * intercept + c, hours) == k * x;
    if x < 0.0 {
      assert k * (-x) > 0.0;
    } else {
      assert k * x >= 0.0;
    }
  }

  /** The fit follows every change of units and every steady extra use: rate, intercept and residual
      change exactly as the samples do. */
  lemma FitIsEquivariant(samples: seq<Observation>, k: real, b: real, c: real)
    requires k > 0.0
    ensures var fit := Fit(samples);
            Fit(Tilt(samples, k, b, c))
            == if fit.None? then None
               else
                 Some(Line(Rescale(fit.value.rate, k, b), Rescale(fit.value.intercept, k, c),
                           Rescale(fit.value.residual, k, 0.0)))
  {
    hide Slopes;
    hide Median;
    hide Intercepts;
    hide Residuals;
    hide Tilt;
    hide Affine;
    hide Rescale;
    var tilted, slopes := Tilt(samples, k, b, c), Slopes(samples, |samples|);
    NoSamplesNoSlopes(samples);
    SlopesTilted(samples, k, b, c, |samples|);
    assert |Slopes(tilted, |tilted|)| == |slopes|;
    if slopes == [] {
      assert Slopes(tilted, |tilted|) == [];
    } else {
      MedianAffine(slopes, k, b);
      var rate := Median(slopes);
      var intercept := Median(Intercepts(samples, rate));
      var residual := Median(Residuals(samples, rate, intercept));
      TiltedIntercepts(samples, rate, k, b, c);
      TiltedResiduals(samples, rate, intercept, k, b, c);
      FitIs(samples, rate, intercept, residual);
      FitIs(tilted, Rescale(rate, k, b), Rescale(intercept, k, c), Rescale(residual, k, 0.0));
    }
  }

  lemma NoSamplesNoSlopes(samples: seq<Observation>)
    ensures Slopes(samples, |samples|) != [] ==> samples != []
  {
  }

  lemma TiltedIntercepts(samples: seq<Observation>, rate: real, k: real, b: real, c: real)
    requires samples != [] && k > 0.0
    ensures Median(Intercepts(Tilt(samples, k, b, c), Rescale(rate, k, b)))
            == Rescale(Median(Intercepts(samples, rate)), k, c)
  {
    hide Median;
    var tilted := Tilt(samples, k, b, c);
    forall i | 0 <= i < |samples|
      ensures Intercepts(tilted, Rescale(rate, k, b))[i] == Rescale(Intercepts(samples, rate)[i], k, c)
    {
      InterceptTilted(samples[i].percent, Elapsed(samples, i), rate, k, b, c);
    }
    assert Intercepts(tilted, Rescale(rate, k, b)) == Affine(Intercepts(samples, rate), k, c);
    MedianAffine(Intercepts(samples, rate), k, c);
  }

  lemma TiltedResiduals(samples: seq<Observation>, rate: real, intercept: real, k: real, b: real, c: real)
    requires samples != [] && k > 0.0
    ensures Median(Residuals(Tilt(samples, k, b, c), Rescale(rate, k, b), Rescale(intercept, k, c)))
            == Rescale(Median(Residuals(samples, rate, intercept)), k, 0.0)
  {
    hide Median;
    var tilted := Tilt(samples, k, b, c);
    forall i | 0 <= i < |samples|
      ensures Residuals(tilted, Rescale(rate, k, b), Rescale(intercept, k, c))[i] == Rescale(Residuals(samples, rate, intercept)[i], k, 0.0)
    {
      ResidualTilted(samples[i].percent, Elapsed(samples, i), rate, intercept, k, b, c);
    }
    assert Residuals(tilted, Rescale(rate, k, b), Rescale(intercept, k, c)) == Affine(Residuals(samples, rate, intercept), k, 0.0);
    MedianAffine(Residuals(samples, rate, intercept), k, 0.0);
  }
}
