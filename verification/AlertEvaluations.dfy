/** What one evaluation queues and stores, in the numbers of the observation and the bits stored before; what
    a failing storage call changes about it; and that an overdue level is always alerted. */
module AlertEvaluations {
  import opened Alerts
  import opened AlertTheorems
  import opened Numbers
  import opened Wrappers

  // ------------------------------------------------------------------- bits

  lemma {:induction false} SomeBit(mask: bv8)
    ensures mask != 0 <==> exists i: nat :: i < 8 && Has(mask, i)
  {
    if forall i: nat :: i < 8 ==> !Has(mask, i) {
      forall i: nat | i < 8 ensures Has(mask, i) <==> Has(0, i) {}
      SameBits(mask, 0);
    }
  }

  // ------------------------------------------------------------- the meaning

  /** The last attempt lies at least so many minutes back, or there was none. */
  predicate Rested(last: Option<Instant>, now: Instant, minutes: nat) {
    last.None? || now - last.value >= minutes * 60_000
  }

  /** The window was reset since the last evaluation: its old end has passed, the new one is to come. */
  predicate Ended(existing: Option<WindowState>, o: Observation) {
    existing.Some? && existing.value.resetAt.Some? && o.resetAt.Some? && existing.value.resetAt.value <= o.now < o.resetAt.value
  }

  /** The levels that are crossed and not marked. */
  predicate Pending(mask: bv8, percent: real, levels: seq<nat>, i: nat) {
    i < |levels| && i < 8 && percent <= levels[i] as real && !Has(mask, i)
  }

  ghost predicate AnyPending(mask: bv8, percent: real, levels: seq<nat>) {
    exists i: nat :: Pending(mask, percent, levels, i)
  }

  /** A prediction worth an alert. */
  predicate Foreseen(o: Observation) {
    && o.policy.predictiveAlerts && o.forecast.Some? && o.forecast.value.atRisk
    && (o.forecast.value.confidence.Medium? || o.forecast.value.confidence.High?)
    && o.forecast.value.exhaustionAt.Some? && o.now < o.forecast.value.exhaustionAt.value
  }

  /** What happens in one evaluation without faults: which alerts are queued. */
  datatype Verdict = Verdict(reset: bool, level: bool, predictive: bool)
  {
    predicate Any() { reset || level || predictive }
  }

  /** The stored state, or what stands for it before the first evaluation. */
  function Before(existing: Option<WindowState>, o: Observation): WindowState {
    if existing.Some? then existing.value else WindowState(o.resetAt, 0, None)
  }

  /** Each alert is queued exactly when its occasion arises and the cooldown has passed since the last attempt,
      which may be the alert before it in the same evaluation. */
  ghost predicate Judges(existing: Option<WindowState>, o: Observation, percent: real, levels: seq<nat>, v: Verdict) {
    var was, minutes := Before(existing, o), o.policy.cooldownMinutes;
    var rested := Rested(was.lastAttempt, o.now, minutes);
    var ended := Ended(existing, o);
    && (v.reset <==> ended && o.policy.resetAlerts && rested)
    && (v.level <==> AnyPending(was.mask, percent, levels) && if v.reset then minutes == 0 else rested)
    && (v.predictive <==> Foreseen(o) && (ended || !Has(was.mask, 7))
                          && if v.reset || v.level then minutes == 0 else rested)
  }

  /** The alert names the lowest pending level. */
  ghost predicate Names(alert: Alert, mask: bv8, percent: real, levels: seq<nat>) {
    exists i: nat ::
      && Pending(mask, percent, levels, i) && alert == ThresholdAlert(levels[i])
      && forall k: nat :: Pending(mask, percent, levels, k) ==> k <= i
  }

  ghost predicate QueuesInOrder(queued: seq<Alert>, v: Verdict, mask: bv8, percent: real, levels: seq<nat>) {
    var n := if v.reset then 1 else 0;
    && |queued| == n + (if v.level then 1 else 0) + (if v.predictive then 1 else 0)
    && (v.reset ==> queued[0] == ResetAlert)
    && (v.level ==> Names(queued[n], mask, percent, levels))
    && (v.predictive ==> queued[|queued| - 1] == PredictiveAlert)
  }

  /** The bits afterwards: a level is cleared by more than one percent above it, and set by an alert when it is
      crossed; the predictive bit is cleared by a reset and set by its alert. */
  ghost predicate Marks(was: bv8, mask: bv8, percent: real, levels: seq<nat>, ended: bool, v: Verdict) {
    && (forall i: nat :: i < 7 ==>
          (Has(mask, i) <==>
            || (Has(was, i) && !(i < |levels| && percent > levels[i] as real + 1.0))
            || (v.level && i < |levels| && percent <= levels[i] as real)))
    && (Has(mask, 7) <==> (Has(was, 7) && !ended) || v.predictive)
  }

  // -------------------------------------------------------------- the stages

  /** What a stage has made of the state it found. */
  ghost predicate After(p: Progress, q: Progress, queues: bool, o: Observation) {
    && !q.stopped && |q.queued| == |p.queued| + (if queues then 1 else 0) && p.queued <= q.queued
    && q.state.resetAt == p.state.resetAt
    && q.state.lastAttempt == (if queues then Some(o.now) else p.state.lastAttempt)
  }

  lemma EnqueueExactly(p: Progress, alert: Alert, o: Observation, mask: bv8)
    requires o.fault.NoFault?
    ensures var q := Enqueue(p, alert, o, mask);
            After(p, q, true, o) && q.queued[|p.queued|] == alert && q.state.mask == mask
  {
  }

  lemma AfterNothing(p: Progress, o: Observation)
    requires !p.stopped
    ensures After(p, p, false, o)
  {
  }

  lemma AfterMasking(p: Progress, q: Progress, queues: bool, o: Observation, mask: bv8)
    requires After(p, q, queues, o)
    ensures var r := WithMask(q, mask);
            After(p, r, queues, o) && r.queued == q.queued && r.state.mask == mask
  {
  }

  lemma CoolingIsUnrested(state: WindowState, now: Instant, minutes: nat)
    ensures Cooling(state, now, minutes) <==> !Rested(state.lastAttempt, now, minutes)
  {
  }

  lemma CompletedIsEnded(existing: Option<WindowState>, o: Observation)
    ensures ResetCompleted(existing, o) <==> Ended(existing, o)
  {
  }

  /** The predictive bit is the eighth, apart from the levels. */
  lemma PredictiveBitIsApart(mask: bv8)
    ensures Has(mask, 7) <==> mask & PREDICTIVE_NOTIFICATION_BIT != 0
    ensures forall i: nat :: i < 8 ==>
      && (Has(mask & !PREDICTIVE_NOTIFICATION_BIT, i) <==> Has(mask, i) && i != 7)
      && (Has(mask | PREDICTIVE_NOTIFICATION_BIT, i) <==> Has(mask, i) || i == 7)
  {
    forall i: nat | i < 8
      ensures Has(mask & !PREDICTIVE_NOTIFICATION_BIT, i) <==> Has(mask, i) && i != 7
      ensures Has(mask | PREDICTIVE_NOTIFICATION_BIT, i) <==> Has(mask, i) || i == 7
    {
      HasAndNot(mask, Bit(7), i);
      HasOr(mask, Bit(7), i);
      HasBit(7, i);
    }
  }

  lemma ResetShape(p: Progress, existing: Option<WindowState>, o: Observation)
    requires o.fault.NoFault? && !p.stopped
    ensures var ended := ResetCompleted(existing, o);
            var queues := ended && o.policy.resetAlerts && !Cooling(p.state, o.now, o.policy.cooldownMinutes);
            var q := if queues then Enqueue(p, ResetAlert, o, p.state.mask) else p;
            && q.state.mask == p.state.mask
            && ResetStage(p, existing, o)
               == if ended then WithMask(q, p.state.mask & !PREDICTIVE_NOTIFICATION_BIT) else p
  {
    hide ResetCompleted;
    hide Cooling;
  }

  lemma ResetStageExactly(p: Progress, existing: Option<WindowState>, o: Observation)
    requires o.fault.NoFault? && !p.stopped
    ensures var ended := Ended(existing, o);
            var queues := ended && o.policy.resetAlerts && Rested(p.state.lastAttempt, o.now, o.policy.cooldownMinutes);
            var q := ResetStage(p, existing, o);
            && After(p, q, queues, o) && (queues ==> q.queued[|p.queued|] == ResetAlert)
            && (forall i: nat :: i < 7 ==> (Has(q.state.mask, i) <==> Has(p.state.mask, i)))
            && (Has(q.state.mask, 7) <==> Has(p.state.mask, 7) && !ended)
  {
    hide *;
    CompletedIsEnded(existing, o);
    CoolingIsUnrested(p.state, o.now, o.policy.cooldownMinutes);
    PredictiveBitIsApart(p.state.mask);
    ResetShape(p, existing, o);
    var mask := p.state.mask & !PREDICTIVE_NOTIFICATION_BIT;
    AfterNothing(p, o);
    if ResetCompleted(existing, o) {
      if o.policy.resetAlerts && !Cooling(p.state, o.now, o.policy.cooldownMinutes) {
        EnqueueExactly(p, ResetAlert, o, p.state.mask);
        AfterMasking(p, Enqueue(p, ResetAlert, o, p.state.mask), true, o, mask);
      } else {
        AfterMasking(p, p, false, o, mask);
      }
    }
  }

  /** Re-arming touches no level that is crossed. */
  lemma RearmingKeepsPending(mask: bv8, percent: real, levels: seq<nat>)
    requires |levels| <= 7
    ensures forall i: nat ::
      Pending(Rearmed(mask, percent, levels, |levels|), percent, levels, i) <==> Pending(mask, percent, levels, i)
  {
    forall i: nat | i < |levels|
      ensures Has(Rearmed(mask, percent, levels, |levels|), i)
              <==> Has(mask, i) && !(percent > levels[i] as real + REARM_HYSTERESIS)
    {
      RearmedBits(mask, percent, levels, |levels|, i);
    }
  }

  /** The bits of the crossed levels that are not marked. */
  function Unmarked(mask: bv8, percent: real, levels: seq<nat>): bv8
    requires |levels| <= 7
  {
    CrossedMask(percent, levels, |levels|) & !mask
  }

  /** The mask with every crossed level marked. */
  function MarkedBy(mask: bv8, percent: real, levels: seq<nat>): bv8
    requires |levels| <= 7
  {
    mask | CrossedMask(percent, levels, |levels|)
  }

  lemma MarkedBits(mask: bv8, percent: real, levels: seq<nat>)
    requires |levels| <= 7
    ensures forall i: nat :: i < 8 ==>
      (Has(MarkedBy(mask, percent, levels), i) <==> Has(mask, i) || (i < |levels| && percent <= levels[i] as real))
  {
    forall i: nat | i < 8
      ensures Has(MarkedBy(mask, percent, levels), i) <==> Has(mask, i) || (i < |levels| && percent <= levels[i] as real)
    {
      CrossedBits(percent, levels, |levels|, i);
      HasOr(mask, CrossedMask(percent, levels, |levels|), i);
    }
  }

  lemma UnmarkedArePending(mask: bv8, percent: real, levels: seq<nat>)
    requires |levels| <= 7
    ensures var unmarked := Unmarked(mask, percent, levels);
      && (forall i: nat :: i < 8 ==> (Has(unmarked, i) <==> Pending(mask, percent, levels, i)))
      && (unmarked != 0 <==> AnyPending(mask, percent, levels))
  {
    var crossed := CrossedMask(percent, levels, |levels|);
    var unmarked := crossed & !mask;
    forall i: nat | i < 8
      ensures Has(unmarked, i) <==> Pending(mask, percent, levels, i)
    {
      CrossedBits(percent, levels, |levels|, i);
      HasAndNot(crossed, mask, i);
    }
    SomeBit(unmarked);
  }

  /** The most severe of some marked levels is the lowest one, which comes last. */
  lemma {:induction false} MostSevereIs(mask: bv8, levels: seq<nat>, n: nat) returns (k: nat)
    requires n <= |levels| <= 7 && exists i: nat :: i < n && Has(mask, i)
    ensures k < n && Has(mask, k) && (forall i: nat :: i < n && Has(mask, i) ==> i <= k)
    ensures MostSevere(mask, levels, n) == levels[k]
  {
    if Has(mask, n - 1) {
      k := n - 1;
    } else {
      k := MostSevereIs(mask, levels, n - 1);
    }
  }

  lemma NamesTheLowest(mask: bv8, percent: real, levels: seq<nat>)
    requires |levels| <= 7 && AnyPending(mask, percent, levels)
    ensures Names(ThresholdAlert(MostSevere(Unmarked(mask, percent, levels), levels, |levels|)), mask, percent, levels)
  {
    var unmarked := Unmarked(mask, percent, levels);
    UnmarkedArePending(mask, percent, levels);
    var i: nat :| Pending(mask, percent, levels, i);
    assert Has(unmarked, i);
    var k := MostSevereIs(unmarked, levels, |levels|);
  }

  lemma CrossIs(p: Progress, percent: real, levels: seq<nat>, o: Observation)
    requires |levels| <= 7
    ensures var unmarked := Unmarked(p.state.mask, percent, levels);
            Cross(p, CrossedMask(percent, levels, |levels|), levels, o)
            == if unmarked != 0 && !Cooling(p.state, o.now, o.policy.cooldownMinutes) then
                 Enqueue(p, ThresholdAlert(MostSevere(unmarked, levels, |levels|)), o,
                         MarkedBy(p.state.mask, percent, levels))
               else p
  {
    UnmarkedIs(p.state.mask, percent, levels);
    hide *;
    CrossWith(p, CrossedMask(percent, levels, |levels|), levels, o, Unmarked(p.state.mask, percent, levels),
              MarkedBy(p.state.mask, percent, levels));
  }

  lemma CrossWith(p: Progress, crossed: bv8, levels: seq<nat>, o: Observation, unmarked: bv8, marks: bv8)
    requires |levels| <= 7 && unmarked == crossed & !p.state.mask && marks == p.state.mask | crossed
    ensures Cross(p, crossed, levels, o)
            == if unmarked != 0 && !Cooling(p.state, o.now, o.policy.cooldownMinutes) then
                 Enqueue(p, ThresholdAlert(MostSevere(unmarked, levels, |levels|)), o, marks)
               else p
  {
    hide MostSevere;
    hide Enqueue;
    hide Cooling;
  }

  lemma UnmarkedIs(mask: bv8, percent: real, levels: seq<nat>)
    requires |levels| <= 7
    ensures Unmarked(mask, percent, levels) == CrossedMask(percent, levels, |levels|) & !mask
    ensures MarkedBy(mask, percent, levels) == mask | CrossedMask(percent, levels, |levels|)
  {
    hide CrossedMask;
  }

  lemma CrossQueues(p: Progress, percent: real, levels: seq<nat>, o: Observation)
    requires o.fault.NoFault? && !p.stopped && |levels| <= 7
    requires AnyPending(p.state.mask, percent, levels)
    requires Rested(p.state.lastAttempt, o.now, o.policy.cooldownMinutes)
    ensures var q := Cross(p, CrossedMask(percent, levels, |levels|), levels, o);
            && After(p, q, true, o) && Names(q.queued[|p.queued|], p.state.mask, percent, levels)
            && q.state.mask == MarkedBy(p.state.mask, percent, levels)
  {
    hide *;
    UnmarkedArePending(p.state.mask, percent, levels);
    CoolingIsUnrested(p.state, o.now, o.policy.cooldownMinutes);
    NamesTheLowest(p.state.mask, percent, levels);
    CrossIs(p, percent, levels, o);
    var alert := ThresholdAlert(MostSevere(Unmarked(p.state.mask, percent, levels), levels, |levels|));
    EnqueueExactly(p, alert, o, MarkedBy(p.state.mask, percent, levels));
  }

  lemma CrossPasses(p: Progress, percent: real, levels: seq<nat>, o: Observation)
    requires o.fault.NoFault? && !p.stopped && |levels| <= 7
    requires AnyPending(p.state.mask, percent, levels) ==> !Rested(p.state.lastAttempt, o.now, o.policy.cooldownMinutes)
    ensures Cross(p, CrossedMask(percent, levels, |levels|), levels, o) == p && After(p, p, false, o)
  {
    hide *;
    UnmarkedArePending(p.state.mask, percent, levels);
    CoolingIsUnrested(p.state, o.now, o.policy.cooldownMinutes);
    CrossIs(p, percent, levels, o);
    AfterNothing(p, o);
  }

  lemma LevelStageExactly(p: Progress, o: Observation)
    requires o.fault.NoFault? && !p.stopped && o.percent.Some? && |Levels(o.policy.thresholds)| <= 7
    ensures var percent, levels := ClampPercent(o.percent.value), Levels(o.policy.thresholds);
            var queues := AnyPending(p.state.mask, percent, levels)
                          && Rested(p.state.lastAttempt, o.now, o.policy.cooldownMinutes);
            var q := LevelStage(p, o);
            && After(p, q, queues, o)
            && (queues ==> Names(q.queued[|p.queued|], p.state.mask, percent, levels))
            && (forall i: nat :: i < 8 ==>
                  (Has(q.state.mask, i) <==>
                    || (Has(p.state.mask, i) && !(i < |levels| && percent > levels[i] as real + 1.0))
                    || (queues && i < |levels| && percent <= levels[i] as real)))
  {
    var percent, levels := ClampPercent(o.percent.value), Levels(o.policy.thresholds);
    var armed := Rearmed(p.state.mask, percent, levels, |levels|);
    var before := WithMask(p, armed);
    LevelStageIs(p, o);
    RearmingKeepsPending(p.state.mask, percent, levels);
    SamePending(p.state.mask, armed, percent, levels);
    RearmedAtAll(p.state.mask, percent, levels);
    MarkedBits(armed, percent, levels);
    hide *;
    if AnyPending(p.state.mask, percent, levels) && Rested(p.state.lastAttempt, o.now, o.policy.cooldownMinutes) {
      CrossQueues(before, percent, levels, o);
      SameQueue(p, before, LevelStage(p, o), true, o);
    } else {
      CrossPasses(before, percent, levels, o);
      SameQueue(p, before, before, false, o);
    }
  }

  lemma SameQueue(p: Progress, before: Progress, q: Progress, queues: bool, o: Observation)
    requires After(before, q, queues, o) && before == WithMask(p, before.state.mask)
    ensures After(p, q, queues, o)
  {
  }

  lemma LevelStageIs(p: Progress, o: Observation)
    requires !p.stopped && o.percent.Some? && |Levels(o.policy.thresholds)| <= 7
    ensures var percent, levels := ClampPercent(o.percent.value), Levels(o.policy.thresholds);
            var before := WithMask(p, Rearmed(p.state.mask, percent, levels, |levels|));
            && before.queued == p.queued && before.stopped == p.stopped && before.state.lastAttempt == p.state.lastAttempt
            && before.state.mask == Rearmed(p.state.mask, percent, levels, |levels|)
            && LevelStage(p, o) == Cross(before, CrossedMask(percent, levels, |levels|), levels, o)
  {
    hide Rearmed;
    hide CrossedMask;
    hide Cross;
    hide ClampPercent;
    hide Levels;
  }

  lemma RearmedAtAll(mask: bv8, percent: real, levels: seq<nat>)
    requires |levels| <= 7
    ensures forall i: nat :: i < 8 ==>
      (Has(Rearmed(mask, percent, levels, |levels|), i)
       <==> Has(mask, i) && !(i < |levels| && percent > levels[i] as real + 1.0))
  {
    forall i: nat | i < 8
      ensures Has(Rearmed(mask, percent, levels, |levels|), i)
              <==> Has(mask, i) && !(i < |levels| && percent > levels[i] as real + 1.0)
    {
      RearmedBits(mask, percent, levels, |levels|, i);
    }
  }

  lemma SamePending(a: bv8, b: bv8, percent: real, levels: seq<nat>)
    requires forall i: nat :: Pending(a, percent, levels, i) <==> Pending(b, percent, levels, i)
    ensures AnyPending(a, percent, levels) <==> AnyPending(b, percent, levels)
    ensures forall alert :: Names(alert, a, percent, levels) <==> Names(alert, b, percent, levels)
  {
    hide Pending;
  }

  lemma PredictiveStageExactly(p: Progress, o: Observation)
    requires o.fault.NoFault? && !p.stopped
    ensures var queues := Foreseen(o) && !Has(p.state.mask, 7)
                          && Rested(p.state.lastAttempt, o.now, o.policy.cooldownMinutes);
            var q := PredictiveStage(p, o);
            && After(p, q, queues, o) && (queues ==> q.queued[|p.queued|] == PredictiveAlert)
            && (forall i: nat :: i < 7 ==> (Has(q.state.mask, i) <==> Has(p.state.mask, i)))
            && (Has(q.state.mask, 7) <==> Has(p.state.mask, 7) || queues)
  {
    CoolingIsUnrested(p.state, o.now, o.policy.cooldownMinutes);
    EnqueueExactly(p, PredictiveAlert, o, p.state.mask | PREDICTIVE_NOTIFICATION_BIT);
    PredictiveBitIsApart(p.state.mask);
    hide Enqueue;
    hide Cooling;
    hide Rested;
    hide Has;
  }

  lemma LevelsAreBelowThePredictiveBit(a: bv8, b: bv8, percent: real, levels: seq<nat>)
    requires |levels| <= 7 && forall i: nat :: i < 7 ==> (Has(a, i) <==> Has(b, i))
    ensures AnyPending(a, percent, levels) <==> AnyPending(b, percent, levels)
    ensures forall alert :: Names(alert, a, percent, levels) <==> Names(alert, b, percent, levels)
  {
    forall i: nat
      ensures Pending(a, percent, levels, i) <==> Pending(b, percent, levels, i)
    {
    }
    SamePending(a, b, percent, levels);
  }

  lemma StagesInTurn(existing: Option<WindowState>, o: Observation)
    requires |Levels(o.policy.thresholds)| <= 7 && o.fault.NoFault?
    requires o.policy.enabled && !o.suppressed && o.authoritative && o.percent.Some?
    requires !PredictiveStage(LevelStage(ResetStage(Begin(existing, o), existing, o), o), o).stopped
    ensures var p := PredictiveStage(LevelStage(ResetStage(Begin(existing, o), existing, o), o), o);
            Process(existing, o) == (p.queued, Some(p.state.(resetAt := o.resetAt)))
    ensures Begin(existing, o) == Progress(false, Before(existing, o), [])
  {
    hide ResetStage;
    hide LevelStage;
    hide PredictiveStage;
  }

  /** Three stages from nothing queued. */
  lemma QueuedInTurn(p0: Progress, p1: Progress, p2: Progress, p3: Progress, v: Verdict, o: Observation, mask: bv8,
                     percent: real, levels: seq<nat>)
    requires p0.queued == [] && After(p0, p1, v.reset, o) && After(p1, p2, v.level, o) && After(p2, p3, v.predictive, o)
    requires v.reset ==> p1.queued[0] == ResetAlert
    requires v.level ==> Names(p2.queued[|p1.queued|], mask, percent, levels)
    requires v.predictive ==> p3.queued[|p2.queued|] == PredictiveAlert
    ensures QueuesInOrder(p3.queued, v, mask, percent, levels)
    ensures p3.state.lastAttempt == if v.Any() then Some(o.now) else p0.state.lastAttempt
  {
    hide Names;
  }

  /** The bits, stage by stage. */
  lemma MarkedInTurn(m0: bv8, m1: bv8, m2: bv8, m3: bv8, percent: real, levels: seq<nat>, ended: bool, v: Verdict)
    requires |levels| <= 7
    requires (forall i: nat :: i < 7 ==> (Has(m1, i) <==> Has(m0, i))) && (Has(m1, 7) <==> Has(m0, 7) && !ended)
    requires forall i: nat :: i < 8 ==>
      (Has(m2, i) <==>
        || (Has(m1, i) && !(i < |levels| && percent > levels[i] as real + 1.0))
        || (v.level && i < |levels| && percent <= levels[i] as real))
    requires (forall i: nat :: i < 7 ==> (Has(m3, i) <==> Has(m2, i))) && (Has(m3, 7) <==> Has(m2, 7) || v.predictive)
    ensures Marks(m0, m3, percent, levels, ended, v)
  {
    hide Has;
  }

  lemma RestedNow(now: Instant, minutes: nat)
    ensures Rested(Some(now), now, minutes) <==> minutes == 0
  {
  }

  lemma StoppedAfter(p: Progress, q: Progress, queues: bool, o: Observation)
    requires After(p, q, queues, o)
    ensures !q.stopped && q.state.lastAttempt == if queues then Some(o.now) else p.state.lastAttempt
  {
  }

  lemma JudgedReset(existing: Option<WindowState>, o: Observation, percent: real, levels: seq<nat>, v: Verdict)
    requires o.fault.NoFault? && |levels| <= 7 && Judges(existing, o, percent, levels, v)
    ensures var p0 := Progress(false, Before(existing, o), []);
            var p1 := ResetStage(p0, existing, o);
            && After(p0, p1, v.reset, o) && (v.reset ==> p1.queued[0] == ResetAlert)
            && (forall i: nat :: i < 7 ==> (Has(p1.state.mask, i) <==> Has(p0.state.mask, i)))
            && (Has(p1.state.mask, 7) <==> Has(p0.state.mask, 7) && !Ended(existing, o))
  {
    ResetStageExactly(Progress(false, Before(existing, o), []), existing, o);
    hide ResetStage;
    hide AnyPending;
    hide Foreseen;
    hide Rested;
    hide Has;
  }

  lemma JudgedLevel(existing: Option<WindowState>, o: Observation, v: Verdict, p1: Progress)
    requires o.fault.NoFault? && o.percent.Some? && |Levels(o.policy.thresholds)| <= 7
    requires Judges(existing, o, ClampPercent(o.percent.value), Levels(o.policy.thresholds), v)
    requires After(Progress(false, Before(existing, o), []), p1, v.reset, o)
    requires forall i: nat :: i < 7 ==> (Has(p1.state.mask, i) <==> Has(Before(existing, o).mask, i))
    ensures var percent, levels, was := ClampPercent(o.percent.value), Levels(o.policy.thresholds), Before(existing, o);
            var p2 := LevelStage(p1, o);
            && After(p1, p2, v.level, o) && (v.level ==> Names(p2.queued[|p1.queued|], was.mask, percent, levels))
            && (forall i: nat :: i < 8 ==>
                  (Has(p2.state.mask, i) <==>
                    || (Has(p1.state.mask, i) && !(i < |levels| && percent > levels[i] as real + 1.0))
                    || (v.level && i < |levels| && percent <= levels[i] as real)))
  {
    LevelStageExactly(p1, o);
    RestedNow(o.now, o.policy.cooldownMinutes);
    StoppedAfter(Progress(false, Before(existing, o), []), p1, v.reset, o);
    LevelsAreBelowThePredictiveBit(p1.state.mask, Before(existing, o).mask, ClampPercent(o.percent.value),
                                   Levels(o.policy.thresholds));
    hide LevelStage;
    hide AnyPending;
    hide Names;
    hide Foreseen;
    hide Rested;
    hide Has;
    hide After;
    hide ClampPercent;
    hide Levels;
    hide Ended;
  }

  lemma JudgedPrediction(existing: Option<WindowState>, o: Observation, percent: real, levels: seq<nat>, v: Verdict,
                         p1: Progress, p2: Progress)
    requires o.fault.NoFault? && |levels| <= 7 && Judges(existing, o, percent, levels, v)
    requires After(Progress(false, Before(existing, o), []), p1, v.reset, o) && After(p1, p2, v.level, o)
    requires Has(p2.state.mask, 7) <==> Has(Before(existing, o).mask, 7) && !Ended(existing, o)
    ensures var p3 := PredictiveStage(p2, o);
            && After(p2, p3, v.predictive, o) && (v.predictive ==> p3.queued[|p2.queued|] == PredictiveAlert)
            && (forall i: nat :: i < 7 ==> (Has(p3.state.mask, i) <==> Has(p2.state.mask, i)))
            && (Has(p3.state.mask, 7) <==> Has(p2.state.mask, 7) || v.predictive)
  {
    PredictiveStageExactly(p2, o);
    RestedNow(o.now, o.policy.cooldownMinutes);
    StoppedAfter(Progress(false, Before(existing, o), []), p1, v.reset, o);
    StoppedAfter(p1, p2, v.level, o);
    hide PredictiveStage;
    hide AnyPending;
    hide Foreseen;
    hide Rested;
    hide Has;
    hide After;
    hide Ended;
  }

  /** Some verdict fits every evaluation, and only one. */
  lemma VerdictOf(existing: Option<WindowState>, o: Observation, percent: real, levels: seq<nat>) returns (v: Verdict)
    ensures Judges(existing, o, percent, levels, v)
  {
    hide AnyPending;
    hide Foreseen;
    hide Has;
    hide Ended;
    var was, minutes := Before(existing, o), o.policy.cooldownMinutes;
    var ended := Ended(existing, o);
    var rested := Rested(was.lastAttempt, o.now, minutes);
    var reset := ended && o.policy.resetAlerts && rested;
    var level := AnyPending(was.mask, percent, levels) && if reset then minutes == 0 else rested;
    v := Verdict(reset, level, Foreseen(o) && (ended || !Has(was.mask, 7))
                               && if reset || level then minutes == 0 else rested);
  }

  // --------------------------------------------------------------- theorems

  /** An evaluation that nothing prevents, storage working: exactly which alerts it queues, which level it
      names, and every bit and time it stores. */
  lemma EvaluationExactly(existing: Option<WindowState>, o: Observation) returns (v: Verdict)
    requires |Levels(o.policy.thresholds)| <= 7 && o.fault.NoFault?
    requires o.policy.enabled && !o.suppressed && o.authoritative && o.percent.Some?
    ensures var percent, levels, was := ClampPercent(o.percent.value), Levels(o.policy.thresholds), Before(existing, o);
            var (queued, after) := Process(existing, o);
            && Judges(existing, o, percent, levels, v)
            && QueuesInOrder(queued, v, was.mask, percent, levels)
            && after.Some? && after.value.resetAt == o.resetAt
            && after.value.lastAttempt == (if v.Any() then Some(o.now) else was.lastAttempt)
            && Marks(was.mask, after.value.mask, percent, levels, Ended(existing, o), v)
  {
    var percent, levels, was := ClampPercent(o.percent.value), Levels(o.policy.thresholds), Before(existing, o);
    var p0 := Progress(false, was, []);
    hide Process;
    hide Judges;
    hide ResetStage;
    hide LevelStage;
    hide PredictiveStage;
    hide After;
    hide AnyPending;
    hide Names;
    hide QueuesInOrder;
    hide Marks;
    hide Ended;
    hide Has;
    hide ClampPercent;
    hide Levels;
    v := VerdictOf(existing, o, percent, levels);
    JudgedReset(existing, o, percent, levels, v);
    var p1 := ResetStage(p0, existing, o);
    JudgedLevel(existing, o, v, p1);
    var p2 := LevelStage(p1, o);
    JudgedPrediction(existing, o, percent, levels, v, p1, p2);
    var p3 := PredictiveStage(p2, o);
    StoppedAfter(p2, p3, v.predictive, o);
    StagesInTurn(existing, o);
    QueuedInTurn(p0, p1, p2, p3, v, o, was.mask, percent, levels);
    MarkedInTurn(was.mask, p1.state.mask, p2.state.mask, p3.state.mask, percent, levels, Ended(existing, o), v);
  }

  /** An evaluation does not take place for a disabled, suppressed or non-authoritative window, or one without
      a percentage: nothing is queued and nothing changes. */
  lemma NoEvaluation(existing: Option<WindowState>, o: Observation)
    requires |Levels(o.policy.thresholds)| <= 7
    requires !o.policy.enabled || o.suppressed || !o.authoritative || o.percent.None?
    ensures Process(existing, o) == ([], existing)
  {
    hide Stages;
  }

  // ----------------------------------------------------------------- faults

  /** `q`, where the `n`th enqueueing fails, against `p`, where none does. */
  ghost predicate CutAt(n: nat, p: Progress, q: Progress) {
    && !p.stopped
    && if |p.queued| <= n then q == p else q.stopped && q.queued == p.queued[..n]
  }

  lemma EnqueueIsCut(n: nat, p: Progress, q: Progress, alert: Alert, o: Observation, mask: bv8)
    requires o.fault == EnqueueFails(n) && CutAt(n, p, q) && !q.stopped
    ensures CutAt(n, Enqueue(p, alert, o.(fault := NoFault), mask), Enqueue(q, alert, o, mask))
  {
  }

  lemma StaysCut(n: nat, p: Progress, q: Progress, later: Progress)
    requires CutAt(n, p, q) && q.stopped && p.queued <= later.queued && !later.stopped
    ensures CutAt(n, later, q)
  {
  }

  lemma ResetIsCut(n: nat, p: Progress, existing: Option<WindowState>, o: Observation)
    requires o.fault == EnqueueFails(n) && p.queued == [] && !p.stopped
    ensures CutAt(n, ResetStage(p, existing, o.(fault := NoFault)), ResetStage(p, existing, o))
  {
    EnqueueIsCut(n, p, p, ResetAlert, o, p.state.mask);
    hide Cooling;
  }

  lemma LevelIsCut(n: nat, p: Progress, q: Progress, o: Observation)
    requires o.fault == EnqueueFails(n) && CutAt(n, p, q)
    requires o.percent.Some? && |Levels(o.policy.thresholds)| <= 7
    ensures CutAt(n, LevelStage(p, o.(fault := NoFault)), LevelStage(q, o))
  {
    var clean := o.(fault := NoFault);
    var percent, levels := ClampPercent(o.percent.value), Levels(o.policy.thresholds);
    var armed := WithMask(p, Rearmed(p.state.mask, percent, levels, |levels|));
    LevelStageIs(p, clean);
    hide Levels;
    hide ClampPercent;
    hide Rearmed;
    hide CrossedMask;
    if q.stopped {
      CrossGrows(armed, percent, levels, clean);
      hide Cross;
      StaysCut(n, p, q, LevelStage(p, clean));
    } else {
      LevelStageIs(q, o);
      CrossIsCut(n, armed, percent, levels, o);
    }
  }

  lemma CrossGrows(p: Progress, percent: real, levels: seq<nat>, o: Observation)
    requires o.fault.NoFault? && |levels| <= 7 && !p.stopped
    ensures var q := Cross(p, CrossedMask(percent, levels, |levels|), levels, o); p.queued <= q.queued && !q.stopped
  {
    hide CrossedMask;
    hide MostSevere;
    hide Cooling;
  }

  lemma CrossIsCut(n: nat, p: Progress, percent: real, levels: seq<nat>, o: Observation)
    requires o.fault == EnqueueFails(n) && CutAt(n, p, p) && |levels| <= 7
    ensures var crossed := CrossedMask(percent, levels, |levels|);
            CutAt(n, Cross(p, crossed, levels, o.(fault := NoFault)), Cross(p, crossed, levels, o))
  {
    CrossIs(p, percent, levels, o);
    CrossIs(p, percent, levels, o.(fault := NoFault));
    hide *;
    var alert := ThresholdAlert(MostSevere(Unmarked(p.state.mask, percent, levels), levels, |levels|));
    NotStopped(n, p);
    EnqueueIsCut(n, p, p, alert, o, MarkedBy(p.state.mask, percent, levels));
  }

  lemma NotStopped(n: nat, p: Progress)
    requires CutAt(n, p, p)
    ensures !p.stopped
  {
  }

  lemma PredictionIsCut(n: nat, p: Progress, q: Progress, o: Observation)
    requires o.fault == EnqueueFails(n) && CutAt(n, p, q)
    ensures CutAt(n, PredictiveStage(p, o.(fault := NoFault)), PredictiveStage(q, o))
  {
    if !q.stopped {
      EnqueueIsCut(n, p, q, PredictiveAlert, o, p.state.mask | PREDICTIVE_NOTIFICATION_BIT);
    }
    hide Cooling;
  }

  /** A failing storage call never changes what is alerted before it: the queue is cut at the alert that could
      not be queued, and the stored state is all or nothing. */
  lemma FaultsOnlyCutShort(existing: Option<WindowState>, o: Observation)
    requires |Levels(o.policy.thresholds)| <= 7
    requires o.policy.enabled && !o.suppressed && o.authoritative && o.percent.Some?
    ensures var (queued, after) := Process(existing, o.(fault := NoFault));
            Process(existing, o) == match o.fault {
              case NoFault => (queued, after)
              case ReadFails => ([], existing)
              case SaveFails => (queued, existing)
              case EnqueueFails(n) => if n < |queued| then (queued[..n], existing) else (queued, after)
            }
  {
    var clean := o.(fault := NoFault);
    match o.fault {
      case EnqueueFails(n) =>
        var p, q := Begin(existing, clean), Begin(existing, o);
        ResetIsCut(n, p, existing, o);
        var p1, q1 := ResetStage(p, existing, clean), ResetStage(q, existing, o);
        LevelIsCut(n, p1, q1, o);
        PredictionIsCut(n, LevelStage(p1, clean), LevelStage(q1, o), o);
        hide ResetStage;
        hide LevelStage;
        hide PredictiveStage;
      case SaveFails => SaveFaultOnlySaves(existing, o);
      case _ =>
    }
  }

  lemma SaveFaultOnlySaves(existing: Option<WindowState>, o: Observation)
    requires |Levels(o.policy.thresholds)| <= 7 && o.fault.SaveFails?
    requires o.policy.enabled && !o.suppressed && o.authoritative && o.percent.Some?
    ensures Process(existing, o) == (Process(existing, o.(fault := NoFault)).0, existing)
  {
    var clean := o.(fault := NoFault);
    var p := Begin(existing, o);
    var p1 := ResetStage(p, existing, o);
    var p2 := LevelStage(p1, o);
    EqualResets(p, existing, o);
    EqualLevels(p1, o);
    EqualPredictions(p2, o);
    hide ResetStage;
    hide LevelStage;
    hide PredictiveStage;
    hide Levels;
  }

  lemma EqualResets(p: Progress, existing: Option<WindowState>, o: Observation)
    requires o.fault.SaveFails?
    ensures ResetStage(p, existing, o.(fault := NoFault)) == ResetStage(p, existing, o)
  {
    hide Cooling;
  }

  lemma EqualLevels(p: Progress, o: Observation)
    requires o.fault.SaveFails? && o.percent.Some? && |Levels(o.policy.thresholds)| <= 7
    ensures LevelStage(p, o.(fault := NoFault)) == LevelStage(p, o)
  {
    hide Levels;
    hide ClampPercent;
    hide Rearmed;
    hide CrossedMask;
    hide MostSevere;
    hide Cooling;
  }

  lemma EqualPredictions(p: Progress, o: Observation)
    requires o.fault.SaveFails?
    ensures PredictiveStage(p, o.(fault := NoFault)) == PredictiveStage(p, o)
  {
    hide Cooling;
  }

  // ------------------------------------------------------------------- runs

  /** Nothing prevents the evaluation. */
  predicate TakesPlace(o: Observation) {
    o.policy.enabled && !o.suppressed && o.authoritative && o.percent.Some? && o.fault.NoFault?
  }

  lemma NothingQueuedNothingKept(existing: Option<WindowState>, o: Observation)
    requires |Levels(o.policy.thresholds)| <= 7 && (o.fault.NoFault? || o.fault.ReadFails?) && !TakesPlace(o)
    ensures Process(existing, o) == ([], existing)
  {
    if !o.policy.enabled || o.suppressed || !o.authoritative || o.percent.None? {
      NoEvaluation(existing, o);
    } else {
      FaultsOnlyCutShort(existing, o);
    }
  }

  lemma AttemptIsAnAlert(existing: Option<WindowState>, o: Observation)
    requires |Levels(o.policy.thresholds)| <= 7 && (o.fault.NoFault? || o.fault.ReadFails?)
    requires var after := Process(existing, o).1; after.Some? && after.value.lastAttempt.Some?
    ensures var (queued, after) := Process(existing, o);
            || (queued != [] && after.value.lastAttempt.value == o.now)
            || (existing.Some? && existing.value.lastAttempt == after.value.lastAttempt)
  {
    if TakesPlace(o) {
      var v := EvaluationExactly(existing, o);
      hide Process;
      hide Judges;
      hide Marks;
    } else {
      NothingQueuedNothingKept(existing, o);
    }
  }

  /** The last attempt that is stored was an alert. */
  lemma {:induction false} LastAttemptIsAnAlert(os: seq<Observation>, i: nat) returns (k: nat)
    requires ValidRun(os) && StorageWorks(os) && i <= |os|
    requires StateAt(os, i).Some? && StateAt(os, i).value.lastAttempt.Some?
    ensures k < i && AlertsAt(os, k) != [] && os[k].now == StateAt(os, i).value.lastAttempt.value
  {
    hide Process;
    if i == 0 {
      assert false;
    } else {
      assert os[i - 1] in os;
      AttemptIsAnAlert(StateAt(os, i - 1), os[i - 1]);
      if AlertsAt(os, i - 1) != [] && os[i - 1].now == StateAt(os, i).value.lastAttempt.value {
        k := i - 1;
      } else {
        k := LastAttemptIsAnAlert(os, i - 1);
      }
    }
  }

  /** Every alert before `i` lies at least the cooldown of `i` back. */
  ghost predicate CooldownOver(os: seq<Observation>, i: nat)
    requires i < |os| && ValidRun(os)
  {
    forall k :: 0 <= k < i && AlertsAt(os, k) != [] ==> os[i].now - os[k].now >= os[i].policy.cooldownMinutes * 60_000
  }

  lemma CooldownOverIsRested(os: seq<Observation>, i: nat)
    requires ValidRun(os) && StorageWorks(os) && i < |os| && CooldownOver(os, i)
    ensures Rested(Before(StateAt(os, i), os[i]).lastAttempt, os[i].now, os[i].policy.cooldownMinutes)
  {
    hide StateAt;
    if StateAt(os, i).Some? && StateAt(os, i).value.lastAttempt.Some? {
      var k := LastAttemptIsAnAlert(os, i);
    }
  }

  /** Nothing that is due is ever passed over: once every earlier alert lies a cooldown back, an evaluation
      alerts a completed reset; otherwise it alerts the lowest of the crossed levels that are not marked; and
      when there is none either, it alerts a prediction that was not alerted yet. */
  lemma OverdueIsAlerted(os: seq<Observation>, i: nat)
    requires ValidRun(os) && StorageWorks(os) && i < |os| && TakesPlace(os[i]) && CooldownOver(os, i)
    ensures var o, levels, percent := os[i], Levels(os[i].policy.thresholds), ClampPercent(os[i].percent.value);
            var ended, pending := Ended(StateAt(os, i), o), AnyPending(MaskAt(os, i), percent, levels);
            && (ended && o.policy.resetAlerts ==> ResetAlert in AlertsAt(os, i))
            && (!(ended && o.policy.resetAlerts) && pending ==>
                  exists alert <- AlertsAt(os, i) :: Names(alert, MaskAt(os, i), percent, levels))
            && (!(ended && o.policy.resetAlerts) && !pending && Foreseen(o) && (ended || !Has(MaskAt(os, i), 7)) ==>
                  PredictiveAlert in AlertsAt(os, i))
  {
    var o := os[i];
    assert o in os;
    CooldownOverIsRested(os, i);
    var v := EvaluationExactly(StateAt(os, i), o);
    assert Before(StateAt(os, i), o).mask == MaskAt(os, i);
    var queued := AlertsAt(os, i);
    hide Process;
    hide StateAt;
    hide MaskAt;
    hide Rested;
    hide AnyPending;
    hide Names;
    hide Ended;
    hide Foreseen;
    hide Marks;
    hide Has;
    hide Levels;
    hide ClampPercent;
    hide CooldownOver;
    if v.reset { assert queued[0] in queued; }
    if v.level { assert queued[if v.reset then 1 else 0] in queued; }
    if v.predictive { assert queued[|queued| - 1] in queued; }
  }

  /** A level that stays crossed does not wait longer than the cooldown: the first evaluation that is a cooldown
      past every alert before it queues one, at that level or below, unless it has a reset to announce. */
  lemma CrossedLevelIsAlerted(os: seq<Observation>, i: nat, x: nat)
    requires ValidRun(os) && StorageWorks(os) && i < |os| && TakesPlace(os[i]) && CooldownOver(os, i)
    requires x < |Levels(os[i].policy.thresholds)| && x < 8
    requires ClampPercent(os[i].percent.value) <= Levels(os[i].policy.thresholds)[x] as real && !Has(MaskAt(os, i), x)
    ensures ResetAlert in AlertsAt(os, i)
            || exists y: nat :: x <= y < |Levels(os[i].policy.thresholds)|
                                && ThresholdAlert(Levels(os[i].policy.thresholds)[y]) in AlertsAt(os, i)
  {
    OverdueIsAlerted(os, i);
    var levels, percent := Levels(os[i].policy.thresholds), ClampPercent(os[i].percent.value);
    assert Pending(MaskAt(os, i), percent, levels, x);
    hide AlertsAt;
    hide MaskAt;
    hide StateAt;
    hide CooldownOver;
  }
}
