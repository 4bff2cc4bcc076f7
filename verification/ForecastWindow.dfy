/** The forecast of one window (crates/usage-daemon/src/forecast.rs): the projection to the reset, the
    predicted time of exhaustion, and the status. The projection counts whole seconds, cut off; the
    exhaustion time is rounded to a second. */
module ForecastWindow {
  import opened ForecastSamples
  import opened Numbers
  import opened TheilSen
  import opened Wrappers

  datatype Status = Exhausted | AtRisk | Safe | OnPace | InsufficientData

  datatype Forecast = Forecast(rate: Option<real>, projected: Option<real>, remaining: Option<real>,
                               exhaustionAt: Option<int>, status: Status)

  /** Nearest integer, halves away from zero, of a positive number. */
  function Round(x: real): int
    requires x > 0.0
  {
    (x + 0.5).Floor
  }

  /** Seconds until usage reaches 100 percent. */
  function SecondsLeft(current: real, rate: real): real
    requires rate > 0.0
  {
    (100.0 - current) / rate * 3600.0
  }

  function ExhaustionAt(current: real, rate: real, now: int, reset: int): Option<int>
    requires rate > 0.0
  {
    if current >= 100.0 then Some(now)
    else
      var seconds := SecondsLeft(current, rate);
      if seconds <= 0.0 then None
      else
        var at := now + Round(seconds) * 1000;
        if at < reset then Some(at) else None
  }

  function Projection(current: real, rate: real, now: int, reset: int): real {
    current + rate * (((reset - now) / 1000) as real / 3600.0)
  }

  function StatusOf(current: real, projected: Option<real>, exhaustionAt: Option<int>, expected: Option<real>, estimated: bool): Status {
    if current >= 100.0 then Exhausted
    else if exhaustionAt.Some? || (projected.Some? && projected.value >= 100.0) then AtRisk
    else if expected.Some? then
      var delta := current - expected.value;
      if delta > 5.0 then AtRisk else if delta < -5.0 then Safe else OnPace
    else if estimated then Safe
    else InsufficientData
  }

  /** `forecast_window`, for a window with a percentage. */
  function ForecastOf(current: real, expected: Option<real>, reset: Option<int>, now: int, samples: seq<Observation>): Forecast {
    var estimate := if reset.Some? && reset.value > now then Estimate(samples) else None;
    if estimate.None? then
      Forecast(None, None, if current >= 100.0 then Some(0.0) else None, None,
               StatusOf(current, None, None, expected, false))
    else
      var rate := estimate.value.rate;
      var projected := Projection(current, rate, now, reset.value);
      var exhaustionAt := ExhaustionAt(current, rate, now, reset.value);
      Forecast(Some(rate), Some(projected), Some(if current >= 100.0 then 0.0 else ClampPercent(100.0 - projected)), exhaustionAt,
               StatusOf(current, Some(projected), exhaustionAt, expected, true))
  }

  // ----- Laws -----

  lemma RoundIsNear(x: real)
    requires x > 0.0
    ensures x - 0.5 < Round(x) as real <= x + 0.5 && Round(x) >= 0
  {
  }

  /** What `seconds` of use at `rate` amount to. */
  function Use(rate: real, seconds: real): real {
    rate * (seconds / 3600.0)
  }

  lemma SecondsLeftIsUse(current: real, rate: real)
    requires rate > 0.0
    ensures Use(rate, SecondsLeft(current, rate)) == 100.0 - current
    ensures SecondsLeft(current, rate) > 0.0 <==> current < 100.0
  {
    var q := (100.0 - current) / rate;
    assert q * rate == 100.0 - current;
    if current < 100.0 {
      PositiveFactor(q, rate);
    } else {
      NonPositiveFactor(q, rate);
    }
  }

  lemma PositiveFactor(q: real, rate: real)
    requires rate > 0.0 && q * rate > 0.0
    ensures q > 0.0
  {
  }

  lemma NonPositiveFactor(q: real, rate: real)
    requires rate > 0.0 && q * rate <= 0.0
    ensures q <= 0.0
  {
  }

  lemma UseIsMonotone(rate: real, a: real, b: real)
    requires rate > 0.0
    ensures a < b <==> Use(rate, a) < Use(rate, b)
  {
    var d := (b - a) / 3600.0;
    assert Use(rate, b) - Use(rate, a) == rate * d;
    if a < b {
      assert rate * d > 0.0;
    } else {
      assert rate * (-d) >= 0.0;
    }
  }

  lemma UseAdds(rate: real, a: real, b: real)
    ensures Use(rate, a + b) == Use(rate, a) + Use(rate, b)
    ensures Use(rate, a - b) == Use(rate, a) - Use(rate, b)
  {
    assert (a + b) / 3600.0 == a / 3600.0 + b / 3600.0;
    assert (a - b) / 3600.0 == a / 3600.0 - b / 3600.0;
  }

  /** The exhaustion time and the projection agree up to the use of half a second: exhaustion is predicted
      when the projection passes 100 by more than that, and only when it comes that close. */
  lemma ExhaustionAgreesWithProjection(current: real, rate: real, now: int, reset: int)
    requires rate > 0.0 && current < 100.0 && now < reset
    ensures var projected := Projection(current, rate, now, reset);
            var exhaustionAt := ExhaustionAt(current, rate, now, reset);
      && (projected > 100.0 + Use(rate, 0.5) ==> exhaustionAt.Some?)
      && (exhaustionAt.Some? ==> projected > 100.0 - Use(rate, 0.5))
  {
    var seconds := SecondsLeft(current, rate);
    var whole := (reset - now) / 1000;
    SecondsLeftIsUse(current, rate);
    RoundIsNear(seconds);
    UseAdds(rate, seconds, 0.5);
    UseIsMonotone(rate, seconds + 0.5, whole as real);
    UseAdds(rate, whole as real, 0.5);
    UseIsMonotone(rate, seconds, whole as real + 0.5);
    hide Use;
    hide SecondsLeft;
    assert Projection(current, rate, now, reset) == current + Use(rate, whole as real) by { ProjectionIsUse(current, rate, now, reset); }
    hide Projection;
    Boundary(seconds, Round(seconds), now, reset);
  }

  lemma ProjectionIsUse(current: real, rate: real, now: int, reset: int)
    ensures Projection(current, rate, now, reset) == current + Use(rate, ((reset - now) / 1000) as real)
  {
  }

  lemma Boundary(seconds: real, rounded: int, now: int, reset: int)
    requires seconds - 0.5 < rounded as real <= seconds + 0.5 && now < reset
    ensures seconds + 0.5 < ((reset - now) / 1000) as real ==> now + rounded * 1000 < reset
    ensures now + rounded * 1000 < reset ==> seconds < ((reset - now) / 1000) as real + 0.5
  {
  }

  /** A predicted exhaustion lies within the cycle, and within half a second of where usage at the
      estimated rate reaches 100 percent. */
  lemma ExhaustionIsWhereUsageEnds(current: real, rate: real, now: int, reset: int)
    requires rate > 0.0 && now < reset && ExhaustionAt(current, rate, now, reset).Some?
    ensures var at := ExhaustionAt(current, rate, now, reset).value;
      && now <= at < reset
      && (current < 100.0 ==>
            100.0 - Use(rate, 0.5) <= current + Use(rate, (at - now) as real / 1000.0) <= 100.0 + Use(rate, 0.5))
  {
    if current < 100.0 {
      var at, seconds := ExhaustionAt(current, rate, now, reset).value, SecondsLeft(current, rate);
      var rounded := Round(seconds) as real;
      SecondsLeftIsUse(current, rate);
      RoundIsNear(seconds);
      assert (at - now) as real / 1000.0 == rounded;
      UseAdds(rate, seconds, 0.5);
      UseIsMonotone(rate, rounded, seconds - 0.5);
      UseIsMonotone(rate, seconds + 0.5, rounded);
      hide Use;
      hide SecondsLeft;
    }
  }

  /** The verdict itself. Below 100 percent, with a prediction that reaches it, usage is at risk. With none,
      usage is judged by its pace, where that is known: at risk above it by more than five percent, safe below
      it by more, on pace in between. Without a pace an estimate means safe, and no estimate means nothing.
      What remains at the reset is what the projection leaves of 100 percent. */
  lemma VerdictExactly(current: real, expected: Option<real>, reset: Option<int>, now: int, samples: seq<Observation>)
    ensures var f := ForecastOf(current, expected, reset, now, samples);
            var reaches := f.exhaustionAt.Some? || (f.projected.Some? && f.projected.value >= 100.0);
      && (f.status == Exhausted <==> current >= 100.0)
      && (f.status == AtRisk <==> current < 100.0 && (reaches || (expected.Some? && current > expected.value + 5.0)))
      && (f.status == OnPace <==>
            current < 100.0 && !reaches && expected.Some? && expected.value - 5.0 <= current <= expected.value + 5.0)
      && (f.status == Safe <==>
            current < 100.0 && !reaches && if expected.Some? then current < expected.value - 5.0 else f.rate.Some?)
      && (f.remaining.Some? <==> current >= 100.0 || f.projected.Some?)
      && (current >= 100.0 ==> f.remaining == Some(0.0))
      && (current < 100.0 && f.projected.Some? ==>
            f.remaining.value == if f.projected.value > 100.0 then 0.0
                                 else if f.projected.value < 0.0 then 100.0 else 100.0 - f.projected.value)
  {
    hide Estimate;
    hide ExhaustionAt;
    hide Projection;
  }

  /** Where usage stands at the reset when it goes on at `rate`, with nothing rounded. */
  function UsageAtReset(current: real, rate: real, now: int, reset: int): real {
    current + Use(rate, (reset - now) as real / 1000.0)
  }

  lemma ProjectionIsCloseBelow(current: real, rate: real, now: int, reset: int)
    requires rate > 0.0 && now < reset
    ensures var projected, usage := Projection(current, rate, now, reset), UsageAtReset(current, rate, now, reset);
            projected <= usage < projected + Use(rate, 1.0)
  {
    var seconds, whole := (reset - now) as real / 1000.0, ((reset - now) / 1000) as real;
    ProjectionIsUse(current, rate, now, reset);
    UseIsMonotone(rate, seconds, whole);
    UseIsMonotone(rate, seconds, whole + 1.0);
    UseAdds(rate, whole, 1.0);
    hide Use;
    hide Projection;
  }

  /** The verdict against what will really happen at the estimated rate: safe and on pace mean that the
      limit is not passed by the reset, up to the use of a second; at risk, unless it only says that usage is
      ahead of its pace, means that the limit is reached, up to the use of half a second. */
  lemma VerdictFollowsUsageAtReset(current: real, expected: Option<real>, reset: int, now: int, samples: seq<Observation>)
    requires now < reset && Estimate(samples).Some? && current < 100.0
    ensures var rate, f := Estimate(samples).value.rate, ForecastOf(current, expected, Some(reset), now, samples);
            var usage := UsageAtReset(current, rate, now, reset);
      && (f.status == Safe || f.status == OnPace ==> usage < 100.0 + Use(rate, 1.0))
      && (f.status == AtRisk && (expected.Some? ==> current - expected.value <= 5.0) ==> usage > 100.0 - Use(rate, 0.5))
      && (usage >= 100.0 + Use(rate, 1.0) ==> f.status == AtRisk)
  {
    var rate := Estimate(samples).value.rate;
    assert rate > 0.0;
    hide Estimate;
    ProjectionIsCloseBelow(current, rate, now, reset);
    ExhaustionAgreesWithProjection(current, rate, now, reset);
    UseIsMonotone(rate, 0.0, 0.5);
    NoTimeNoUse(rate);
    hide Use;
    hide ExhaustionAt;
    hide Projection;
    hide UsageAtReset;
  }

  lemma NoTimeNoUse(rate: real)
    ensures Use(rate, 0.0) == 0.0
  {
  }

  /** Steady use is forecast by its own line: the projection is where the line stands after the whole
      seconds that are left. */
  lemma {:induction false} SteadyUseIsForecast(samples: seq<Observation>, rate: real, intercept: real, expected: Option<real>,
                                               reset: int, now: int)
    requires |samples| >= MIN_SAMPLES && StrictlyOrdered(samples)
    requires samples[|samples| - 1].at == now < reset && now - samples[0].at >= MIN_SPAN && rate >= MIN_RATE
    requires forall i :: 0 <= i < |samples| ==> samples[i].percent == At(rate, intercept, Elapsed(samples, i))
    ensures var current := samples[|samples| - 1].percent;
            var f := ForecastOf(current, expected, Some(reset), now, samples);
      && f.rate == Some(rate)
      && f.projected == Some(At(rate, intercept, Hours(now - samples[0].at + (reset - now) / 1000 * 1000)))
  {
    hide Estimate;
    hide ForecastOf;
    hide At;
    hide Projection;
    hide StrictlyOrdered;
    var current := samples[|samples| - 1].percent;
    SteadyUseIsEstimatedExactly(samples, rate, intercept);
    UsesTheEstimate(current, expected, Some(reset), now, samples);
    LineMovesOn(current, rate, intercept, samples[0].at, now, reset);
  }

  /** There are predictions exactly when the reset is to come and the samples give an estimate. */
  lemma UsesTheEstimate(current: real, expected: Option<real>, reset: Option<int>, now: int, samples: seq<Observation>)
    ensures var f, e := ForecastOf(current, expected, reset, now, samples), Estimate(samples);
            if reset.Some? && now < reset.value && e.Some? then
              && f.rate == Some(e.value.rate)
              && f.projected == Some(Projection(current, e.value.rate, now, reset.value))
              && f.exhaustionAt == (if current >= 100.0 then Some(now)
                                    else ExhaustionAt(current, e.value.rate, now, reset.value))
            else
              f.rate == None && f.projected == None && f.exhaustionAt == None
  {
    hide Estimate;
    hide Projection;
  }

  lemma LineMovesOn(current: real, rate: real, intercept: real, start: int, now: int, reset: int)
    requires current == At(rate, intercept, Hours(now - start))
    ensures Projection(current, rate, now, reset)
            == At(rate, intercept, Hours(now - start + (reset - now) / 1000 * 1000))
  {
    var left := (reset - now) / 1000;
    assert Hours(now - start + left * 1000) == Hours(now - start) + left as real / 3600.0;
  }
}
