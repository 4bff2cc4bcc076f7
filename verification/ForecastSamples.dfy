/** Which samples the usage forecast looks at (crates/usage-daemon/src/forecast.rs): the current
    cycle out of the stored history, and the sub-sampling in front of the regression. Times are
    milliseconds and percentages are reals. */
module ForecastSamples {
  import opened Sequences
  import opened Wrappers

  const RESET_DROP_PERCENT := 20.0
  const RESET_TOLERANCE := 5 * 60 * 1000
  const MAX_REGRESSION_SAMPLES := 96

  datatype Observation = Observation(at: int, percent: real)

  datatype Stored = Stored(collectedAt: int, percentUsed: real, resetAt: Option<int>)

  // ----- The samples of the current cycle -----

  predicate CompatibleReset(current: Option<int>, historical: Option<int>) {
    current.Some? && historical.Some? ==>
      -RESET_TOLERANCE <= current.value - historical.value <= RESET_TOLERANCE
  }

  /** The stored observations that are not from the future and belong to this reset. */
  function Compatible(history: seq<Stored>, now: int, resetAt: Option<int>): seq<Observation> {
    if history == [] then []
    else
      var rest, last := Compatible(history[..|history| - 1], now, resetAt), history[|history| - 1];
      if last.collectedAt <= now && CompatibleReset(resetAt, last.resetAt)
      then rest + [Observation(last.collectedAt, last.percentUsed)] else rest
  }

  /** Into a sequence sorted by time, behind everything that is not later: a stable sort's step. */
  function InsertByTime(x: Observation, s: seq<Observation>): seq<Observation> {
    if s == [] || s[|s| - 1].at <= x.at then s + [x]
    else InsertByTime(x, s[..|s| - 1]) + [s[|s| - 1]]
  }

  function SortByTime(s: seq<Observation>): seq<Observation> {
    if s == [] then [] else InsertByTime(s[|s| - 1], SortByTime(s[..|s| - 1]))
  }

  /** Of neighbours with equal times only the first stays. */
  function Dedup(s: seq<Observation>): seq<Observation> {
    if s == [] then []
    else
      var kept, last := Dedup(s[..|s| - 1]), s[|s| - 1];
      if kept != [] && kept[|kept| - 1].at == last.at then kept else kept + [last]
  }

  predicate Drops(s: seq<Observation>, i: nat)
    requires 0 < i < |s|
  {
    s[i - 1].percent - s[i].percent >= RESET_DROP_PERCENT
  }

  /** Where the current cycle starts: behind the last large drop at or before position `n`. */
  function CycleStart(s: seq<Observation>, n: nat): (start: nat)
    requires n < |s|
    ensures start <= n
  {
    if n == 0 || Drops(s, n) then n else CycleStart(s, n - 1)
  }

  function Cycle(observations: seq<Observation>): seq<Observation> {
    var samples := Dedup(SortByTime(observations));
    if samples == [] then [] else samples[CycleStart(samples, |samples| - 1)..]
  }

  /** Look for the last large drop from the end, and drop everything before it. */
  method DrainToLastDrop(observations: seq<Observation>) returns (samples: seq<Observation>)
    requires observations != []
    ensures samples == observations[CycleStart(observations, |observations| - 1)..]
  {
    var boundary := |observations| - 1;
    while boundary > 0 && !Drops(observations, boundary)
      invariant 0 <= boundary < |observations|
      invariant CycleStart(observations, |observations| - 1) == CycleStart(observations, boundary)
    {
      boundary := boundary - 1;
    }
    samples := observations[boundary..];
  }

  method Filter(history: seq<Stored>, now: int, resetAt: Option<int>) returns (observations: seq<Observation>)
    ensures observations == Compatible(history, now, resetAt)
  {
    observations := [];
    for i := 0 to |history|
      invariant observations == Compatible(history[..i], now, resetAt)
    {
      assert history[..i + 1][..i] == history[..i];
      if history[i].collectedAt <= now && CompatibleReset(resetAt, history[i].resetAt) {
        observations := observations + [Observation(history[i].collectedAt, history[i].percentUsed)];
      }
    }
    assert history[..|history|] == history;
  }

  /** `current_cycle`: filter, push the current reading, sort, dedup, and drain up to the last drop. */
  method CurrentCycle(now: int, percent: Option<real>, resetAt: Option<int>, history: seq<Stored>)
    returns (observations: seq<Observation>)
    ensures observations
            == Cycle(Compatible(history, now, resetAt) + [Observation(now, if percent.Some? then percent.value else 0.0)])
  {
    hide Compatible;
    hide SortByTime;
    hide Dedup;
    observations := Filter(history, now, resetAt);
    observations := observations + [Observation(now, if percent.Some? then percent.value else 0.0)];
    SomethingKept(observations);
    observations := SortByTime(observations);
    observations := Dedup(observations);
    observations := DrainToLastDrop(observations);
  }

  predicate Ordered(s: seq<Observation>) {
    forall i, j :: 0 <= i < j < |s| ==> s[i].at <= s[j].at
  }

  predicate StrictlyOrdered(s: seq<Observation>) {
    forall i, j :: 0 <= i < j < |s| ==> s[i].at < s[j].at
  }

  /** The first observation of `s` taken at `t`. */
  function FirstAt(s: seq<Observation>, t: int): Option<Observation> {
    if s == [] then None
    else
      var earlier := FirstAt(s[..|s| - 1], t);
      if earlier.Some? then earlier
      else if s[|s| - 1].at == t then Some(s[|s| - 1]) else None
  }

  lemma {:induction false} NoneAt(s: seq<Observation>, t: int)
    ensures FirstAt(s, t).None? <==> forall i :: 0 <= i < |s| ==> s[i].at != t
    ensures FirstAt(s, t).Some? ==> FirstAt(s, t).value.at == t && FirstAt(s, t).value in s
  {
    if s != [] {
      NoneAt(s[..|s| - 1], t);
    }
  }

  lemma FirstBefore(s: seq<Observation>, last: Observation, t: int)
    ensures FirstAt(s + [last], t)
            == if FirstAt(s, t).Some? then FirstAt(s, t) else if last.at == t then Some(last) else None
  {
    assert (s + [last])[..|s|] == s;
  }

  lemma {:induction false} InsertKeepsOrder(x: Observation, s: seq<Observation>)
    requires Ordered(s)
    ensures var r := InsertByTime(x, s);
      && |r| == |s| + 1 && Ordered(r) && (forall y :: y in r ==> y == x || y in s)
  {
    if s != [] && s[|s| - 1].at > x.at {
      var rest, last := s[..|s| - 1], s[|s| - 1];
      InsertKeepsOrder(x, rest);
      var r := InsertByTime(x, rest);
      forall i | 0 <= i < |r|
        ensures r[i].at <= last.at
      {
        assert r[i] == x || r[i] in rest;
      }
    }
  }

  /** Sorted insertion keeps which observation comes first at each instant. */
  lemma {:induction false} InsertKeepsFirst(x: Observation, s: seq<Observation>, t: int)
    ensures FirstAt(InsertByTime(x, s), t) == FirstAt(s + [x], t)
  {
    if s != [] && s[|s| - 1].at > x.at {
      var rest, last := s[..|s| - 1], s[|s| - 1];
      InsertKeepsFirst(x, rest, t);
      FirstBefore(InsertByTime(x, rest), last, t);
      FirstBefore(rest, x, t);
      FirstBefore(rest, last, t);
      FirstBefore(s, x, t);
      assert s == rest + [last];
    }
  }

  lemma {:induction false} SortShape(s: seq<Observation>)
    ensures |SortByTime(s)| == |s| && Ordered(SortByTime(s))
  {
    if s != [] {
      SortShape(s[..|s| - 1]);
      InsertKeepsOrder(s[|s| - 1], SortByTime(s[..|s| - 1]));
    }
  }

  lemma {:induction false} SortKeepsFirst(s: seq<Observation>, t: int)
    ensures FirstAt(SortByTime(s), t) == FirstAt(s, t)
  {
    if s != [] {
      var rest, last := s[..|s| - 1], s[|s| - 1];
      SortKeepsFirst(rest, t);
      InsertKeepsFirst(last, SortByTime(rest), t);
      FirstBefore(SortByTime(rest), last, t);
    }
  }

  lemma {:induction false} DedupShape(s: seq<Observation>)
    requires Ordered(s)
    ensures StrictlyOrdered(Dedup(s)) && (s != [] ==> Dedup(s) != [] && Dedup(s)[|Dedup(s)| - 1].at == s[|s| - 1].at)
  {
    if s != [] {
      var rest, last := s[..|s| - 1], s[|s| - 1];
      DedupShape(rest);
      if rest != [] {
        assert rest[|rest| - 1].at <= last.at;
      }
    }
  }

  lemma {:induction false} DedupKeepsFirst(s: seq<Observation>, t: int)
    ensures FirstAt(Dedup(s), t) == FirstAt(s, t)
  {
    if s != [] {
      var rest, last := s[..|s| - 1], s[|s| - 1];
      DedupKeepsFirst(rest, t);
      var kept := Dedup(rest);
      FirstBefore(kept, last, t);
      FirstBefore(rest, last, t);
      assert rest + [last] == s;
      NoneAt(kept, t);
    }
  }

  lemma SomethingKept(s: seq<Observation>)
    requires s != []
    ensures Dedup(SortByTime(s)) != []
  {
    SortShape(s);
    DedupShape(SortByTime(s));
  }

  lemma {:induction false} StartIsLastDrop(s: seq<Observation>, n: nat)
    requires n < |s|
    ensures var start := CycleStart(s, n);
            (start > 0 ==> Drops(s, start)) && forall i :: start < i <= n ==> !Drops(s, i)
  {
    if n > 0 && !Drops(s, n) {
      StartIsLastDrop(s, n - 1);
    }
  }

  lemma KeptCoversAll(observations: seq<Observation>, kept: seq<Observation>)
    requires StrictlyOrdered(kept) && forall t :: FirstAt(kept, t) == FirstAt(observations, t)
    ensures forall i :: 0 <= i < |kept| ==> FirstAt(observations, kept[i].at) == Some(kept[i])
    ensures forall o :: o in observations ==> SampledAt(kept, o.at)
  {
    hide FirstAt;
    forall i | 0 <= i < |kept|
      ensures FirstAt(observations, kept[i].at) == Some(kept[i])
    {
      OnlyOneAt(kept, i);
    }
    forall o | o in observations
      ensures SampledAt(kept, o.at)
    {
      NoneAt(observations, o.at);
      NoneAt(kept, o.at);
    }
  }

  /** One observation per instant, the first taken there, in order of time. */
  lemma KeptMeaning(observations: seq<Observation>)
    requires observations != []
    ensures var kept := Dedup(SortByTime(observations));
      && kept != [] && StrictlyOrdered(kept)
      && (forall i :: 0 <= i < |kept| ==> FirstAt(observations, kept[i].at) == Some(kept[i]))
      && (forall o :: o in observations ==> SampledAt(kept, o.at))
  {
    var sorted := SortByTime(observations);
    SortShape(observations);
    DedupShape(sorted);
    var kept := Dedup(sorted);
    hide SortByTime;
    hide Dedup;
    hide StrictlyOrdered;
    hide FirstAt;
    forall t
      ensures FirstAt(kept, t) == FirstAt(observations, t)
    {
      DedupKeepsFirst(sorted, t);
      SortKeepsFirst(observations, t);
    }
    KeptCoversAll(observations, kept);
  }

  predicate SampledAt(s: seq<Observation>, t: int) {
    exists i :: 0 <= i < |s| && s[i].at == t
  }

  lemma SampledInTail(s: seq<Observation>, start: nat, t: int)
    requires start < |s| && StrictlyOrdered(s) && SampledAt(s, t)
    ensures t <= s[|s| - 1].at
    ensures t >= s[start].at ==> SampledAt(s[start..], t)
  {
    var i :| 0 <= i < |s| && s[i].at == t;
    if i >= start {
      assert s[start..][i - start].at == t;
    }
  }

  lemma TailKeepsOrder(s: seq<Observation>, start: nat)
    requires start < |s| && StrictlyOrdered(s)
    ensures StrictlyOrdered(s[start..])
  {
    var tail := s[start..];
    assert forall i :: 0 <= i < |tail| ==> tail[i] == s[start + i];
  }

  /** What the samples of a cycle are: one per instant, the first taken there, in order of time, all
      of them from the last drop by 20 percent or more on. */
  lemma CycleMeaning(observations: seq<Observation>)
    requires observations != []
    ensures var samples := Cycle(observations);
      && samples != [] && StrictlyOrdered(samples)
      && (forall i :: 0 < i < |samples| ==> samples[i - 1].percent - samples[i].percent < 20.0)
      && (forall i :: 0 <= i < |samples| ==> FirstAt(observations, samples[i].at) == Some(samples[i]))
      && (forall o :: o in observations ==> o.at <= samples[|samples| - 1].at)
      && (forall o :: o in observations && o.at >= samples[0].at ==> SampledAt(samples, o.at))
  {
    hide *;
    var kept := Dedup(SortByTime(observations));
    KeptMeaning(observations);
    StartIsLastDrop(kept, |kept| - 1);
    CycleIs(observations);
    TailMeaning(observations, kept, CycleStart(kept, |kept| - 1));
  }

  lemma CycleIs(observations: seq<Observation>)
    requires Dedup(SortByTime(observations)) != []
    ensures var kept := Dedup(SortByTime(observations)); Cycle(observations) == kept[CycleStart(kept, |kept| - 1)..]
  {
    hide SortByTime;
    hide Dedup;
    hide CycleStart;
  }

  /** The samples from `start` on, behind which there is no large drop. */
  lemma TailMeaning(observations: seq<Observation>, kept: seq<Observation>, start: nat)
    requires start < |kept| && StrictlyOrdered(kept) && forall i :: start < i < |kept| ==> !Drops(kept, i)
    requires forall i :: 0 <= i < |kept| ==> FirstAt(observations, kept[i].at) == Some(kept[i])
    requires forall o :: o in observations ==> SampledAt(kept, o.at)
    ensures var samples := kept[start..];
      && StrictlyOrdered(samples)
      && (forall i :: 0 < i < |samples| ==> samples[i - 1].percent - samples[i].percent < 20.0)
      && (forall i :: 0 <= i < |samples| ==> FirstAt(observations, samples[i].at) == Some(samples[i]))
      && (forall o :: o in observations ==> o.at <= samples[|samples| - 1].at)
      && (forall o :: o in observations && o.at >= samples[0].at ==> SampledAt(samples, o.at))
  {
    var samples := kept[start..];
    TailKeepsOrder(kept, start);
    NoDropInTail(kept, start);
    hide *;
    forall o | o in observations
      ensures o.at <= samples[|samples| - 1].at
      ensures o.at >= samples[0].at ==> SampledAt(samples, o.at)
    {
      SampledInTail(kept, start, o.at);
    }
  }

  lemma NoDropInTail(s: seq<Observation>, start: nat)
    requires start < |s| && forall i :: start < i < |s| ==> !Drops(s, i)
    ensures var tail := s[start..]; forall i :: 0 < i < |tail| ==> tail[i - 1].percent - tail[i].percent < 20.0
  {
    var tail := s[start..];
    forall i | 0 < i < |tail|
      ensures tail[i - 1].percent - tail[i].percent < 20.0
    {
      assert !Drops(s, start + i);
    }
  }

  /** Of the deduplicated samples only those up to a drop by 20 percent or more are left out. */
  lemma CycleIsMaximal(observations: seq<Observation>) returns (start: nat)
    requires observations != []
    ensures var kept := Dedup(SortByTime(observations));
      && start < |kept| && Cycle(observations) == kept[start..]
      && (start > 0 ==> kept[start - 1].percent - kept[start].percent >= 20.0)
  {
    SomethingKept(observations);
    hide SortByTime;
    hide Dedup;
    var kept := Dedup(SortByTime(observations));
    start := CycleStart(kept, |kept| - 1);
    StartIsLastDrop(kept, |kept| - 1);
  }

  lemma {:induction false} OnlyOneAt(s: seq<Observation>, i: nat)
    requires StrictlyOrdered(s) && i < |s|
    ensures FirstAt(s, s[i].at) == Some(s[i])
  {
    var rest := s[..|s| - 1];
    if i < |rest| {
      OnlyOneAt(rest, i);
      assert rest[i] == s[i];
    } else {
      NoneAt(rest, s[i].at);
    }
  }

  lemma {:induction false} CompatibleIsPast(history: seq<Stored>, now: int, resetAt: Option<int>)
    ensures forall o :: o in Compatible(history, now, resetAt) ==> o.at <= now
  {
    if history != [] {
      CompatibleIsPast(history[..|history| - 1], now, resetAt);
    }
  }

  /** The stored observation was not taken later than `now`, and its reset, where both are known, is at most
      five minutes away from the current one. */
  predicate Belongs(o: Stored, now: int, resetAt: Option<int>) {
    && o.collectedAt <= now
    && (resetAt.Some? && o.resetAt.Some? ==> -300_000 <= resetAt.value - o.resetAt.value <= 300_000)
  }

  function Seen(o: Stored): Observation {
    Observation(o.collectedAt, o.percentUsed)
  }

  /** The stored observations that are looked at: in the order of the history, each once, exactly those that
      belong to the current cycle's reset. */
  lemma {:induction false} CompatibleExactly(history: seq<Stored>, now: int, resetAt: Option<int>) returns (picks: seq<nat>)
    ensures Picks(history, Compatible(history, now, resetAt), picks, Seen)
    ensures forall k: nat :: k in picks <==> k < |history| && Belongs(history[k], now, resetAt)
  {
    if history == [] {
      picks := [];
    } else {
      var n := |history| - 1;
      assert history == history[..n] + [history[n]];
      var rest := CompatibleExactly(history[..n], now, resetAt);
      PickedOneMore(history[..n], Compatible(history[..n], now, resetAt), rest, Seen, history[n]);
      hide Picks;
      picks := if Belongs(history[n], now, resetAt) then rest + [n] else rest;
    }
  }

  /** Every sample of the cycle is the current reading or a stored observation that belongs to it, and no
      stored observation that belongs to it goes unsampled from the first sample's instant on. */
  lemma {:induction false} CycleComesFromHere(now: int, percent: real, resetAt: Option<int>, history: seq<Stored>)
    ensures var samples := Cycle(Compatible(history, now, resetAt) + [Observation(now, percent)]);
      && (forall x <- samples :: x == Observation(now, percent) || exists k :: (
            0 <= k < |history| && Belongs(history[k], now, resetAt)
            && x == Seen(history[k])))
      && samples != []
      && (forall k :: 0 <= k < |history| && Belongs(history[k], now, resetAt) ==>
            history[k].collectedAt < samples[0].at || SampledAt(samples, history[k].collectedAt))
  {
    var stored, reading := Compatible(history, now, resetAt), Observation(now, percent);
    var all := stored + [reading];
    var picks := CompatibleExactly(history, now, resetAt);
    hide Compatible;
    CycleMeaning(all);
    var samples := Cycle(all);
    hide Cycle;
    hide StrictlyOrdered;
    hide SampledAt;
    hide Belongs;
    forall x <- samples
      ensures x == reading || exists k :: (0 <= k < |history| && Belongs(history[k], now, resetAt)
                                           && x == Seen(history[k]))
    {
      var i :| 0 <= i < |samples| && samples[i] == x;
      NoneAt(all, samples[i].at);
      if x != reading {
        assert x in stored;
        var j :| 0 <= j < |stored| && stored[j] == x;
        assert picks[j] in picks;
      }
    }
    forall k | 0 <= k < |history| && Belongs(history[k], now, resetAt) && history[k].collectedAt >= samples[0].at
      ensures SampledAt(samples, history[k].collectedAt)
    {
      assert k in picks;
      var j :| 0 <= j < |picks| && picks[j] == k;
      assert stored[j] in all;
    }
  }

  /** The cycle ends at the current reading's instant. The sample there is the current reading
      exactly when no compatible stored observation carries the same instant; a stored one wins. */
  lemma {:induction false} CycleEndsNow(now: int, percent: real, resetAt: Option<int>, history: seq<Stored>)
    ensures var stored := Compatible(history, now, resetAt);
            var samples := Cycle(stored + [Observation(now, percent)]);
      && samples != [] && samples[|samples| - 1].at == now
      && samples[|samples| - 1]
         == if FirstAt(stored, now).Some? then FirstAt(stored, now).value else Observation(now, percent)
  {
    var stored := Compatible(history, now, resetAt);
    var reading := Observation(now, percent);
    CompatibleIsPast(history, now, resetAt);
    hide Compatible;
    CycleMeaning(stored + [reading]);
    hide Cycle;
    FirstBefore(stored, reading, now);
    hide FirstAt;
    hide StrictlyOrdered;
    hide SampledAt;
    NoneAt(stored + [reading], Cycle(stored + [reading])[|Cycle(stored + [reading])| - 1].at);
    assert reading in stored + [reading];
  }

  // ----- Sub-sampling -----

  function SampleIndex(i: nat, n: nat): int
    requires n > 0
  {
    i * (n - 1) / (MAX_REGRESSION_SAMPLES - 1)
  }

  lemma {:induction false} TimesGrows(i: nat, j: nat, m: nat)
    requires i < j
    ensures 0 <= i * m && i * m + m <= j * m
  {
    assert j * m == (j - 1) * m + m;
    if i + 1 < j {
      TimesGrows(i, j - 1, m);
    }
  }

  lemma DivisionKeepsOrder(x: int, y: int, m: int)
    requires 0 <= x && x + m <= y <= 95 * m && 95 < m
    ensures 0 <= x / 95 < y / 95 <= m
  {
  }

  lemma SampleIndexGrows(i: nat, j: nat, n: nat)
    requires i < j < MAX_REGRESSION_SAMPLES < n
    ensures 0 <= SampleIndex(i, n) < SampleIndex(j, n) < n
  {
    var m := n - 1;
    TimesGrows(i, j, m);
    TimesGrows(j, 96, m);
    DivisionKeepsOrder(i * m, j * m, m);
  }

  function RegressionSamples(samples: seq<Observation>): seq<Observation> {
    if |samples| <= MAX_REGRESSION_SAMPLES then samples
    else
      seq(MAX_REGRESSION_SAMPLES, i requires 0 <= i < MAX_REGRESSION_SAMPLES =>
        SampleIndexGrows(if i == 0 then 0 else i - 1, if i == 0 then 1 else i, |samples|);
        samples[SampleIndex(i, |samples|)])
  }

  /** Sub-sampling keeps at most 96 samples, the first and the last among them, and their order. */
  lemma SubsamplingSpans(samples: seq<Observation>)
    requires samples != [] && StrictlyOrdered(samples)
    ensures var r := RegressionSamples(samples);
      && 0 < |r| == (if |samples| <= 96 then |samples| else 96)
      && StrictlyOrdered(r) && r[0] == samples[0] && r[|r| - 1] == samples[|samples| - 1]
      && forall x :: x in r ==> x in samples
  {
    var r, n := RegressionSamples(samples), |samples|;
    if n > MAX_REGRESSION_SAMPLES {
      forall i, j | 0 <= i < j < |r|
        ensures r[i].at < r[j].at
      {
        SampleIndexGrows(i, j, n);
      }
      assert r[0] == samples[SampleIndex(0, n)] == samples[0];
      assert SampleIndex(95, n) == n - 1;
    }
  }
}
