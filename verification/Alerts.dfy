/** Usage alerts for one window: a bit per threshold level with hysteresis, a predictive
    bit, a cooldown and reset detection, driven by arbitrary observations. */
module Alerts {
  import opened Numbers
  import opened Wrappers

  type Instant = int // milliseconds

  const REARM_HYSTERESIS: real := 1.0
  const PREDICTIVE_NOTIFICATION_BIT: bv8 := 128

  datatype WindowState = WindowState(resetAt: Option<Instant>, mask: bv8, lastAttempt: Option<Instant>)

  datatype Policy = Policy(enabled: bool, thresholds: seq<nat>, resetAlerts: bool, predictiveAlerts: bool,
                           cooldownMinutes: nat)

  datatype Confidence = Low | Medium | High

  datatype Forecast = Forecast(atRisk: bool, confidence: Confidence, exhaustionAt: Option<Instant>)

  /** A storage call that fails ends the evaluation; alerts queued before it stay queued. */
  datatype Fault = NoFault | ReadFails | EnqueueFails(after: nat) | SaveFails

  datatype Observation = Observation(now: Instant, policy: Policy, suppressed: bool, authoritative: bool,
                                     percent: Option<real>, resetAt: Option<Instant>,
                                     forecast: Option<Forecast>, fault: Fault)

  datatype Alert = ResetAlert | ThresholdAlert(threshold: nat) | PredictiveAlert

  /** Between one and seven distinct percentages. */
  predicate ValidThresholds(thresholds: seq<nat>) {
    && 1 <= |thresholds| <= 7
    && (forall t <- thresholds :: t <= 100)
    && (forall i, j :: 0 <= i < j < |thresholds| ==> thresholds[i] != thresholds[j])
  }

  // ------------------------------------------------------------ bits of a mask

  function Bit(i: nat): bv8
    requires i < 8
  {
    if i == 0 then 1 else if i == 1 then 2 else if i == 2 then 4 else if i == 3 then 8
    else if i == 4 then 16 else if i == 5 then 32 else if i == 6 then 64 else 128
  }

  /** The table is `1 << i`. */
  lemma BitIsShift(i: nat)
    requires i < 8
    ensures Bit(i) == 1 << i
  {
    if i == 0 {} else if i == 1 {} else if i == 2 {} else if i == 3 {} else if i == 4 {} else if i == 5 {}
    else if i == 6 {} else {}
  }

  predicate Has(mask: bv8, i: nat)
    requires i < 8
  {
    mask & Bit(i) != 0
  }

  // ------------------------------------------------------------------ levels

  function Insert(xs: seq<nat>, x: nat): seq<nat> {
    if xs == [] || x >= xs[0] then [x] + xs else [xs[0]] + Insert(xs[1..], x)
  }

  /** Level `i` is the i-th largest threshold and owns bit `i`. */
  function Levels(thresholds: seq<nat>): seq<nat> {
    if thresholds == [] then [] else Insert(Levels(thresholds[1..]), thresholds[0])
  }

  /** Clears the levels the observation is safely above. */
  function Rearmed(mask: bv8, percent: real, levels: seq<nat>, n: nat): bv8
    requires n <= |levels| <= 7
  {
    if n == 0 then mask
    else
      var rest := Rearmed(mask, percent, levels, n - 1);
      if percent > levels[n - 1] as real + REARM_HYSTERESIS then rest & !Bit(n - 1) else rest
  }

  function CrossedMask(percent: real, levels: seq<nat>, n: nat): bv8
    requires n <= |levels| <= 7
  {
    if n == 0 then 0
    else
      var rest := CrossedMask(percent, levels, n - 1);
      if percent <= levels[n - 1] as real then rest | Bit(n - 1) else rest
  }

  /** The smallest level whose bit is set; the source panics when there is none. */
  function MostSevere(mask: bv8, levels: seq<nat>, n: nat): nat
    requires n <= |levels| <= 7
  {
    if n == 0 then 0 else if Has(mask, n - 1) then levels[n - 1] else MostSevere(mask, levels, n - 1)
  }

  // -------------------------------------------------------------- evaluation

  predicate Cooling(state: WindowState, now: Instant, cooldownMinutes: nat) {
    state.lastAttempt.Some? && now - state.lastAttempt.value < cooldownMinutes * 60_000
  }

  predicate Evaluated(o: Observation) {
    o.policy.enabled && !o.suppressed && o.authoritative && o.percent.Some? && !o.fault.ReadFails?
  }

  predicate ResetCompleted(existing: Option<WindowState>, o: Observation) {
    && existing.Some? && existing.value.resetAt.Some? && existing.value.resetAt.value <= o.now
    && o.resetAt.Some? && o.resetAt != existing.value.resetAt && o.resetAt.value > o.now
  }

  datatype Progress = Progress(stopped: bool, state: WindowState, queued: seq<Alert>)

  function Enqueue(p: Progress, alert: Alert, o: Observation, mask: bv8): Progress {
    if o.fault == EnqueueFails(|p.queued|) then p.(stopped := true)
    else Progress(false, p.state.(lastAttempt := Some(o.now), mask := mask), p.queued + [alert])
  }

  function Begin(existing: Option<WindowState>, o: Observation): Progress {
    Progress(false, if existing.Some? then existing.value else WindowState(o.resetAt, 0, None), [])
  }

  function ResetStage(p: Progress, existing: Option<WindowState>, o: Observation): Progress {
    if !ResetCompleted(existing, o) then p
    else
      var q := if o.policy.resetAlerts && !Cooling(p.state, o.now, o.policy.cooldownMinutes)
               then Enqueue(p, ResetAlert, o, p.state.mask) else p;
      if q.stopped then q else WithMask(q, q.state.mask & !PREDICTIVE_NOTIFICATION_BIT)
  }

  /** Alerts for the crossings that are not marked yet, and marks every crossing. */
  function Cross(armed: Progress, crossed: bv8, levels: seq<nat>, o: Observation): Progress
    requires |levels| <= 7
  {
    var unmarked := crossed & !armed.state.mask;
    if unmarked != 0 && !Cooling(armed.state, o.now, o.policy.cooldownMinutes) then
      Enqueue(armed, ThresholdAlert(MostSevere(unmarked, levels, |levels|)), o, armed.state.mask | crossed)
    else armed
  }

  function WithMask(p: Progress, mask: bv8): Progress { p.(state := p.state.(mask := mask)) }

  function RearmAndCross(p: Progress, percent: real, levels: seq<nat>, o: Observation): Progress
    requires |levels| <= 7
  {
    Cross(WithMask(p, Rearmed(p.state.mask, percent, levels, |levels|)),
          CrossedMask(percent, levels, |levels|), levels, o)
  }

  function LevelStage(p: Progress, o: Observation): Progress
    requires o.percent.Some? && |Levels(o.policy.thresholds)| <= 7
  {
    if p.stopped then p else RearmAndCross(p, ClampPercent(o.percent.value), Levels(o.policy.thresholds), o)
  }

  predicate Predicts(state: WindowState, o: Observation) {
    && o.forecast.Some? && o.policy.predictiveAlerts
    && state.mask & PREDICTIVE_NOTIFICATION_BIT == 0
    && o.forecast.value.atRisk && !o.forecast.value.confidence.Low?
    && o.forecast.value.exhaustionAt.Some? && o.forecast.value.exhaustionAt.value > o.now
  }

  function PredictiveStage(p: Progress, o: Observation): Progress {
    if !p.stopped && Predicts(p.state, o) && !Cooling(p.state, o.now, o.policy.cooldownMinutes)
    then Enqueue(p, PredictiveAlert, o, p.state.mask | PREDICTIVE_NOTIFICATION_BIT)
    else p
  }

  function Stages(existing: Option<WindowState>, o: Observation): Progress
    requires o.percent.Some? && |Levels(o.policy.thresholds)| <= 7
  {
    PredictiveStage(LevelStage(ResetStage(Begin(existing, o), existing, o), o), o)
  }

  /** What is queued, and what is stored afterwards. */
  function Process(existing: Option<WindowState>, o: Observation): (seq<Alert>, Option<WindowState>)
    requires |Levels(o.policy.thresholds)| <= 7
  {
    if !Evaluated(o) then ([], existing)
    else
      var p := Stages(existing, o);
      (p.queued, if p.stopped || o.fault.SaveFails? then existing else Some(p.state.(resetAt := o.resetAt)))
  }

  // ------------------------------------------------------- the imperative form

  class AlertWindow {
    var stored: Option<WindowState>
    var outbox: seq<Alert>

    constructor ()
      ensures stored == None && outbox == []
    {
      stored, outbox := None, [];
    }

    /** Queues one alert, unless the storage refuses; `progress` is this evaluation so far. */
    method TryEnqueue(progress: Progress, alert: Alert, o: Observation, mask: bv8) returns (after: Progress)
      modifies this`outbox
      ensures after == Enqueue(progress, alert, o, mask)
      ensures Grown(old(outbox), outbox, progress, after)
    {
      if o.fault == EnqueueFails(|progress.queued|) {
        return progress.(stopped := true);
      }
      outbox := outbox + [alert];
      return Progress(false, progress.state.(lastAttempt := Some(o.now), mask := mask), progress.queued + [alert]);
    }

    method QueueReset(progress: Progress, existing: Option<WindowState>, o: Observation) returns (after: Progress)
      modifies this`outbox
      ensures after == ResetStage(progress, existing, o) && Grown(old(outbox), outbox, progress, after)
    {
      after := progress;
      var completed := ResetCompleted(existing, o);
      if completed && o.policy.resetAlerts && !Cooling(after.state, o.now, o.policy.cooldownMinutes) {
        after := TryEnqueue(after, ResetAlert, o, after.state.mask);
      }
      if completed && !after.stopped {
        after := WithMask(after, after.state.mask & !PREDICTIVE_NOTIFICATION_BIT);
      }
    }

    method QueueLevel(progress: Progress, o: Observation) returns (after: Progress)
      requires o.percent.Some? && |Levels(o.policy.thresholds)| <= 7
      modifies this`outbox
      ensures after == LevelStage(progress, o) && Grown(old(outbox), outbox, progress, after)
    {
      if progress.stopped { return progress; }
      var levels, percent := Levels(o.policy.thresholds), ClampPercent(o.percent.value);
      var mask := progress.state.mask;
      for n := 0 to |levels|
        invariant mask == Rearmed(progress.state.mask, percent, levels, n)
        invariant outbox == old(outbox)
      {
        if percent > levels[n] as real + REARM_HYSTERESIS {
          mask := mask & !Bit(n);
        }
      }
      var crossed := CrossedMask(percent, levels, |levels|);
      after := QueueCrossing(WithMask(progress, mask), crossed, levels, o);
    }

    method QueueCrossing(armed: Progress, crossed: bv8, levels: seq<nat>, o: Observation) returns (after: Progress)
      requires |levels| <= 7
      modifies this`outbox
      ensures after == Cross(armed, crossed, levels, o) && Grown(old(outbox), outbox, armed, after)
    {
      after := armed;
      var newCrossings := crossed & !armed.state.mask;
      if newCrossings != 0 && !Cooling(armed.state, o.now, o.policy.cooldownMinutes) {
        var alert := ThresholdAlert(MostSevere(newCrossings, levels, |levels|));
        after := TryEnqueue(armed, alert, o, armed.state.mask | crossed);
      }
    }

    method QueuePredictive(progress: Progress, o: Observation) returns (after: Progress)
      modifies this`outbox
      ensures after == PredictiveStage(progress, o) && Grown(old(outbox), outbox, progress, after)
    {
      after := progress;
      if !progress.stopped && Predicts(progress.state, o) && !Cooling(progress.state, o.now, o.policy.cooldownMinutes) {
        after := TryEnqueue(progress, PredictiveAlert, o, progress.state.mask | PREDICTIVE_NOTIFICATION_BIT);
      }
    }

    method RunStages(existing: Option<WindowState>, o: Observation) returns (progress: Progress)
      requires o.percent.Some? && |Levels(o.policy.thresholds)| <= 7
      modifies this`outbox
      ensures progress == Stages(existing, o) && outbox == old(outbox) + progress.queued
    {
      var initial := if existing.Some? then existing.value else WindowState(o.resetAt, 0, None);
      var reset := QueueReset(Progress(false, initial, []), existing, o);
      ghost var afterReset := outbox;
      var leveled := QueueLevel(reset, o);
      ghost var afterLevel := outbox;
      progress := QueuePredictive(leveled, o);
      Chained(old(outbox), afterReset, afterLevel, Progress(false, initial, []), reset, leveled);
      Chained(old(outbox), afterLevel, outbox, Progress(false, initial, []), leveled, progress);
    }

    method ProcessWindow(o: Observation)
      requires ValidThresholds(o.policy.thresholds)
      modifies this
      ensures |Levels(o.policy.thresholds)| <= 7
      ensures outbox == old(outbox) + Process(old(stored), o).0
      ensures stored == Process(old(stored), o).1
    {
      LevelsShape(o.policy.thresholds);
      if !Evaluated(o) { return; }
      var existing := stored;
      var progress := RunStages(existing, o);
      if progress.stopped { return; }
      var state := progress.state.(resetAt := o.resetAt);
      if existing == Some(state) || o.fault.SaveFails? {
        return; // nothing to save, or the save failed
      }
      stored := Some(state);
    }
  }

  lemma Chained(a: seq<Alert>, b: seq<Alert>, c: seq<Alert>, p: Progress, q: Progress, r: Progress)
    requires Grown(a, b, p, q) && Grown(b, c, q, r)
    ensures Grown(a, c, p, r)
  {
    assert r.queued[|p.queued|..] == q.queued[|p.queued|..] + r.queued[|q.queued|..];
  }

  /** The outbox grew by what one stage queued. */
  ghost predicate Grown(before: seq<Alert>, after: seq<Alert>, p: Progress, q: Progress) {
    p.queued <= q.queued && after == before + q.queued[|p.queued|..]
  }

  // ----------------------------------------------------------- bit-level facts

  lemma HasOr(a: bv8, b: bv8, i: nat)
    requires i < 8
    ensures Has(a | b, i) <==> Has(a, i) || Has(b, i)
  {
  }

  lemma HasAndNot(a: bv8, b: bv8, i: nat)
    requires i < 8
    ensures Has(a & !b, i) <==> Has(a, i) && !Has(b, i)
  {
  }

  lemma HasBit(k: nat, i: nat)
    requires i < 8 && k < 8
    ensures Has(Bit(k), i) <==> i == k
  {
  }

  lemma SameBits(a: bv8, b: bv8)
    requires forall i: nat :: i < 8 ==> (Has(a, i) <==> Has(b, i))
    ensures a == b
  {
    assert Has(a, 0) == Has(b, 0) && Has(a, 1) == Has(b, 1) && Has(a, 2) == Has(b, 2) && Has(a, 3) == Has(b, 3);
    assert Has(a, 4) == Has(b, 4) && Has(a, 5) == Has(b, 5) && Has(a, 6) == Has(b, 6) && Has(a, 7) == Has(b, 7);
  }

  /** The mask with the `j` lowest bits. */
  function Prefix(j: nat): bv8
    requires j <= 7
  {
    Bit(j) - 1
  }

  lemma HasPrefix(j: nat, i: nat)
    requires j <= 7 && i < 8
    ensures Has(Prefix(j), i) <==> i < j
  {
  }

  // -------------------------------------------------------------- level facts

  ghost predicate Decreasing(xs: seq<nat>) {
    forall i, j :: 0 <= i < j < |xs| ==> xs[i] > xs[j]
  }

  lemma {:induction false} InsertShape(xs: seq<nat>, x: nat)
    requires Decreasing(xs) && x !in xs
    ensures Decreasing(Insert(xs, x)) && |Insert(xs, x)| == |xs| + 1
    ensures forall y :: y in Insert(xs, x) <==> y == x || y in xs
  {
    if xs != [] && x >= xs[0] {
      assert xs[0] in xs;
    } else if xs != [] {
      InsertShape(xs[1..], x);
      assert xs == [xs[0]] + xs[1..];
      var rest := Insert(xs[1..], x);
      forall k | 0 <= k < |rest| ensures xs[0] > rest[k] {
        assert rest[k] in rest;
        if rest[k] != x {
          var l :| 0 <= l < |xs[1..]| && xs[1..][l] == rest[k];
          assert xs[l + 1] == rest[k];
        }
      }
    }
  }

  lemma {:induction false} LevelsShape(thresholds: seq<nat>)
    requires forall i, j :: 0 <= i < j < |thresholds| ==> thresholds[i] != thresholds[j]
    ensures Decreasing(Levels(thresholds)) && |Levels(thresholds)| == |thresholds|
    ensures forall t :: t in Levels(thresholds) <==> t in thresholds
  {
    if thresholds != [] {
      LevelsShape(thresholds[1..]);
      assert thresholds == [thresholds[0]] + thresholds[1..];
      assert forall k :: 0 <= k < |thresholds[1..]| ==> thresholds[1..][k] == thresholds[k + 1] != thresholds[0];
      InsertShape(Levels(thresholds[1..]), thresholds[0]);
    }
  }
}
