/** What every sequence of observations keeps. */
module AlertTheorems {
  import opened Alerts
  import opened Numbers
  import opened Wrappers

  // --------------------------------------------------- what the loops compute

  lemma {:induction false} RearmedBits(mask: bv8, percent: real, levels: seq<nat>, n: nat, i: nat)
    requires n <= |levels| <= 7 && i < 8
    ensures Has(Rearmed(mask, percent, levels, n), i)
            <==> Has(mask, i) && !(i < n && percent > levels[i] as real + REARM_HYSTERESIS)
  {
    if n > 0 {
      var rest := Rearmed(mask, percent, levels, n - 1);
      RearmedBits(mask, percent, levels, n - 1, i);
      HasAndNot(rest, Bit(n - 1), i);
      HasBit(n - 1, i);
    }
  }

  lemma {:induction false} CrossedBits(percent: real, levels: seq<nat>, n: nat, i: nat)
    requires n <= |levels| <= 7 && i < 8
    ensures Has(CrossedMask(percent, levels, n), i) <==> i < n && percent <= levels[i] as real
  {
    if n > 0 {
      var rest := CrossedMask(percent, levels, n - 1);
      CrossedBits(percent, levels, n - 1, i);
      HasOr(rest, Bit(n - 1), i);
      HasBit(n - 1, i);
    } else {
      assert Bit(i) & 0 == 0;
    }
  }

  lemma {:induction false} MostSevereIsLast(mask: bv8, levels: seq<nat>, n: nat, k: nat)
    requires k < n <= |levels| <= 7 && Has(mask, k)
    requires forall i :: k < i < n ==> !Has(mask, i)
    ensures MostSevere(mask, levels, n) == levels[k]
  {
    if k < n - 1 { MostSevereIsLast(mask, levels, n - 1, k); }
  }

  /** How many levels are at or above a percentage. */
  function Count(percent: real, levels: seq<nat>): nat {
    if levels == [] || percent > levels[0] as real then 0 else 1 + Count(percent, levels[1..])
  }

  lemma {:induction false} CountSplits(percent: real, levels: seq<nat>)
    requires Decreasing(levels)
    ensures Count(percent, levels) <= |levels|
    ensures forall i :: 0 <= i < |levels| ==> (percent <= levels[i] as real <==> i < Count(percent, levels))
  {
    if levels != [] {
      CountSplits(percent, levels[1..]);
      assert forall i :: 0 < i < |levels| ==> levels[i] == levels[1..][i - 1];
    }
  }

  lemma CountIsMonotone(a: real, b: real, levels: seq<nat>)
    requires Decreasing(levels) && a <= b
    ensures Count(b, levels) <= Count(a, levels)
  {
    CountSplits(a, levels);
    CountSplits(b, levels);
    if Count(b, levels) > 0 { assert b <= levels[Count(b, levels) - 1] as real; }
  }

  // --------------------------------------------------------------- a counter

  /** The threshold bits are the `j` lowest ones: 2^j - 1. */
  predicate Marked(mask: bv8, j: nat) { j <= 7 && mask & 127 == Prefix(j) }

  lemma MarkedBits(mask: bv8, j: nat)
    requires j <= 7
    ensures Marked(mask, j) <==> forall i: nat :: i < 7 ==> (Has(mask, i) <==> i < j)
  {
    var low := mask & 127;
    forall i: nat | i < 8
      ensures Has(Prefix(j), i) <==> i < j
      ensures Has(low, i) <==> i < 7 && Has(mask, i)
    {
      HasPrefix(j, i);
    }
    if forall i: nat :: i < 7 ==> (Has(mask, i) <==> i < j) {
      forall i: nat | i < 8 ensures Has(low, i) <==> Has(Prefix(j), i) {}
      SameBits(low, Prefix(j));
    }
  }

  /** The same machine on a counter of alerted levels: falling back re-arms from the top of
      the usage scale, crossing more levels than are counted alerts. */
  function Recount(j: nat, percent: real, levels: seq<nat>, cooling: bool): nat {
    var armed := Min(j, Count(percent - REARM_HYSTERESIS, levels));
    if Count(percent, levels) > armed && !cooling then Count(percent, levels) else armed
  }

  lemma RearmedMask(mask: bv8, j: nat, percent: real, levels: seq<nat>)
    requires Decreasing(levels) && |levels| <= 7 && Marked(mask, j) && j <= |levels|
    ensures Marked(Rearmed(mask, percent, levels, |levels|), Min(j, Count(percent - REARM_HYSTERESIS, levels)))
  {
    var armed := Min(j, Count(percent - REARM_HYSTERESIS, levels));
    CountSplits(percent - REARM_HYSTERESIS, levels);
    var after := Rearmed(mask, percent, levels, |levels|);
    MarkedBits(mask, j);
    forall i: nat | i < 7 ensures Has(after, i) <==> i < armed {
      RearmedBits(mask, percent, levels, |levels|, i);
    }
    MarkedBits(after, armed);
  }

  /** The bitmask refines the counter, and the alert names the last level crossed. */
  lemma MaskRefinesCounter(p: Progress, percent: real, levels: seq<nat>, o: Observation, j: nat)
    requires Decreasing(levels) && |levels| <= 7 && !p.stopped && Marked(p.state.mask, j) && j <= |levels|
    ensures var q := RearmAndCross(p, percent, levels, o);
            var cooling := Cooling(p.state, o.now, o.policy.cooldownMinutes);
            var armed, count := Min(j, Count(percent - REARM_HYSTERESIS, levels)), Count(percent, levels);
            && count <= |levels|
            && (!q.stopped ==> Marked(q.state.mask, Recount(j, percent, levels, cooling)))
            && (!q.stopped ==>
                 q.queued == p.queued + (if count > armed && !cooling then [ThresholdAlert(levels[count - 1])] else []))
            && (q.stopped ==> q.queued == p.queued)
  {
    var armed, count := Min(j, Count(percent - REARM_HYSTERESIS, levels)), Count(percent, levels);
    RearmedMask(p.state.mask, j, percent, levels);
    CountSplits(percent, levels);
    var crossed := CrossedMask(percent, levels, |levels|);
    forall i: nat | i < 8 ensures Has(crossed, i) <==> i < count { CrossedBits(percent, levels, |levels|, i); }
    CrossRefinesCounter(WithMask(p, Rearmed(p.state.mask, percent, levels, |levels|)), crossed, levels, o, armed, count);
  }

  lemma CrossRefinesCounter(p: Progress, crossed: bv8, levels: seq<nat>, o: Observation, armed: nat, count: nat)
    requires armed <= |levels| <= 7 && count <= |levels| && Marked(p.state.mask, armed) && !p.stopped
    requires forall i: nat :: i < 8 ==> (Has(crossed, i) <==> i < count)
    ensures var q := Cross(p, crossed, levels, o);
            var alerts := count > armed && !Cooling(p.state, o.now, o.policy.cooldownMinutes);
            && (!q.stopped ==> Marked(q.state.mask, if alerts then count else armed))
            && (!q.stopped ==> q.queued == p.queued + (if alerts then [ThresholdAlert(levels[count - 1])] else []))
            && (q.stopped ==> q.queued == p.queued)
  {
    if count > armed {
      SomethingUnmarked(p.state.mask, crossed, levels, armed, count);
      AllMarked(p.state.mask, crossed, armed, count);
    } else {
      NothingUnmarked(p.state.mask, crossed, armed, count);
    }
    CrossOnce(p, crossed, levels, o, armed, count);
  }

  lemma NothingUnmarked(mask: bv8, crossed: bv8, armed: nat, count: nat)
    requires count <= armed <= 7 && Marked(mask, armed)
    requires forall i: nat :: i < 8 ==> (Has(crossed, i) <==> i < count)
    ensures crossed & !mask == 0
  {
    var unmarked := crossed & !mask;
    MarkedBits(mask, armed);
    forall i: nat | i < 8 ensures Has(unmarked, i) <==> Has(0, i) { HasAndNot(crossed, mask, i); }
    SameBits(unmarked, 0);
  }

  lemma SomethingUnmarked(mask: bv8, crossed: bv8, levels: seq<nat>, armed: nat, count: nat)
    requires armed < count <= |levels| <= 7 && Marked(mask, armed)
    requires forall i: nat :: i < 8 ==> (Has(crossed, i) <==> i < count)
    ensures crossed & !mask != 0 && MostSevere(crossed & !mask, levels, |levels|) == levels[count - 1]
  {
    var unmarked := crossed & !mask;
    MarkedBits(mask, armed);
    forall i: nat | i < 8 ensures Has(unmarked, i) <==> Has(crossed, i) && !Has(mask, i) {
      HasAndNot(crossed, mask, i);
    }
    assert Has(unmarked, count - 1);
    MostSevereIsLast(unmarked, levels, |levels|, count - 1);
  }

  lemma AllMarked(mask: bv8, crossed: bv8, armed: nat, count: nat)
    requires armed < count <= 7 && Marked(mask, armed)
    requires forall i: nat :: i < 8 ==> (Has(crossed, i) <==> i < count)
    ensures Marked(mask | crossed, count)
  {
    var all := mask | crossed;
    MarkedBits(mask, armed);
    forall i: nat | i < 7 ensures Has(all, i) <==> i < count { HasOr(mask, crossed, i); }
    MarkedBits(all, count);
  }

  lemma CrossOnce(p: Progress, crossed: bv8, levels: seq<nat>, o: Observation, armed: nat, count: nat)
    requires |levels| <= 7 && count <= |levels| && Marked(p.state.mask, armed) && !p.stopped
    requires crossed & !p.state.mask == 0 <==> count <= armed
    requires count > armed ==> MostSevere(crossed & !p.state.mask, levels, |levels|) == levels[count - 1]
    requires count > armed ==> Marked(p.state.mask | crossed, count)
    ensures var q := Cross(p, crossed, levels, o);
            var alerts := count > armed && !Cooling(p.state, o.now, o.policy.cooldownMinutes);
            && (!q.stopped ==> Marked(q.state.mask, if alerts then count else armed))
            && (!q.stopped ==> q.queued == p.queued + (if alerts then [ThresholdAlert(levels[count - 1])] else []))
            && (q.stopped ==> q.queued == p.queued)
  {
    var alerts := count > armed && !Cooling(p.state, o.now, o.policy.cooldownMinutes);
    CrossShape(p, crossed, levels, o, alerts);
    var marks := p.state.mask | crossed;
    hide Cross;
    hide MostSevere;
    hide Marked;
    hide Cooling;
    assert p.queued + [] == p.queued;
    if alerts {
      EnqueueShape(p, ThresholdAlert(levels[count - 1]), o, marks);
      hide Enqueue;
    }
  }

  lemma CrossShape(p: Progress, crossed: bv8, levels: seq<nat>, o: Observation, alerts: bool)
    requires |levels| <= 7
    requires alerts <==> crossed & !p.state.mask != 0 && !Cooling(p.state, o.now, o.policy.cooldownMinutes)
    ensures Cross(p, crossed, levels, o)
            == if alerts then
                 Enqueue(p, ThresholdAlert(MostSevere(crossed & !p.state.mask, levels, |levels|)), o, p.state.mask | crossed)
               else p
  {
    hide MostSevere;
    hide Enqueue;
    hide Cooling;
  }

  lemma EnqueueShape(p: Progress, alert: Alert, o: Observation, mask: bv8)
    ensures var q := Enqueue(p, alert, o, mask);
      && (q.stopped ==> q.queued == p.queued)
      && (!q.stopped ==> q.queued == p.queued + [alert] && q.state.mask == mask)
  {
  }

  // ------------------------------------------------------------------- runs

  ghost predicate ValidRun(os: seq<Observation>) {
    forall o <- os :: ValidThresholds(o.policy.thresholds) && |Levels(o.policy.thresholds)| <= 7
  }

  /** One threshold list for the whole run. */
  ghost predicate FixedThresholds(os: seq<Observation>, thresholds: seq<nat>) {
    ValidRun(os) && forall o <- os :: o.policy.thresholds == thresholds
  }

  /** Reads may fail; everything else works. */
  ghost predicate StorageWorks(os: seq<Observation>) {
    forall o <- os :: o.fault.NoFault? || o.fault.ReadFails?
  }

  function StateAt(os: seq<Observation>, i: nat): Option<WindowState>
    requires i <= |os| && ValidRun(os)
  {
    if i == 0 then None else Process(StateAt(os, i - 1), os[i - 1]).1
  }

  function AlertsAt(os: seq<Observation>, i: nat): seq<Alert>
    requires i < |os| && ValidRun(os)
  {
    Process(StateAt(os, i), os[i]).0
  }

  function MaskAt(os: seq<Observation>, i: nat): bv8
    requires i <= |os| && ValidRun(os)
  {
    if StateAt(os, i).Some? then StateAt(os, i).value.mask else 0
  }

  predicate CoolingAt(os: seq<Observation>, i: nat)
    requires i < |os| && ValidRun(os)
  {
    var p := ResetStage(Begin(StateAt(os, i), os[i]), StateAt(os, i), os[i]);
    Cooling(p.state, os[i].now, os[i].policy.cooldownMinutes)
  }

  function PercentAt(os: seq<Observation>, i: nat): real
    requires i < |os| && Evaluated(os[i])
  {
    ClampPercent(os[i].percent.value)
  }

  /** The counter machine run beside the bitmask. */
  function CounterAt(os: seq<Observation>, i: nat): nat
    requires i <= |os| && ValidRun(os)
  {
    if i == 0 then 0
    else if Evaluated(os[i - 1]) then
      Recount(CounterAt(os, i - 1), PercentAt(os, i - 1), Levels(os[i - 1].policy.thresholds), CoolingAt(os, i - 1))
    else CounterAt(os, i - 1)
  }

  // ------------------------------------------------------------- prefix of bits

  lemma HighBitIsApart(mask: bv8, j: nat)
    ensures Marked(mask & !PREDICTIVE_NOTIFICATION_BIT, j) <==> Marked(mask, j)
    ensures Marked(mask | PREDICTIVE_NOTIFICATION_BIT, j) <==> Marked(mask, j)
  {
    assert (mask & !128) & 127 == mask & 127;
    assert (mask | 128) & 127 == mask & 127;
  }

  lemma EmptyMaskIsMarked()
    ensures Marked(0, 0)
  {
    assert Bit(0) == 1;
  }

  ghost predicate StateMarked(s: Option<WindowState>, j: nat) {
    if s.Some? then Marked(s.value.mask, j) else j == 0
  }

  lemma ResetStageKeepsMarks(existing: Option<WindowState>, o: Observation, j: nat)
    requires StateMarked(existing, j)
    ensures var p := ResetStage(Begin(existing, o), existing, o);
            Marked(p.state.mask, j) && (forall a <- p.queued :: a.ResetAlert?) && (p.stopped ==> p.queued == [])
  {
    EmptyMaskIsMarked();
    HighBitIsApart(Begin(existing, o).state.mask, j);
  }

  lemma PredictiveStageKeepsMarks(p: Progress, o: Observation, j: nat)
    ensures var q := PredictiveStage(p, o);
            && (!q.stopped ==> (Marked(q.state.mask, j) <==> Marked(p.state.mask, j)))
            && p.queued <= q.queued && (forall a <- q.queued[|p.queued|..] :: a.PredictiveAlert?)
            && (p.stopped ==> q == p)
  {
    HighBitIsApart(p.state.mask, j);
  }

  /** The level and the predictive stage follow the counter. */
  lemma StagesFollowCounter(p: Progress, percent: real, levels: seq<nat>, o: Observation, j: nat)
    requires Decreasing(levels) && |levels| <= 7 && Marked(p.state.mask, j) && j <= |levels| && !p.stopped
    requires forall a <- p.queued :: a.ResetAlert?
    ensures var q := PredictiveStage(RearmAndCross(p, percent, levels, o), o);
            var cooling := Cooling(p.state, o.now, o.policy.cooldownMinutes);
            var armed, count := Min(j, Count(percent - REARM_HYSTERESIS, levels)), Count(percent, levels);
            && count <= |levels|
            && (forall a <- q.queued :: a.ThresholdAlert? ==>
                  count > armed && !cooling && a.threshold == levels[count - 1])
            && (!q.stopped ==> Marked(q.state.mask, Recount(j, percent, levels, cooling)))
            && (!q.stopped && count > armed && !cooling ==> ThresholdAlert(levels[count - 1]) in q.queued)
  {
    MaskRefinesCounter(p, percent, levels, o, j);
    var leveled := RearmAndCross(p, percent, levels, o);
    PredictiveStageKeepsMarks(leveled, o, Recount(j, percent, levels, Cooling(p.state, o.now, o.policy.cooldownMinutes)));
    var final := PredictiveStage(leveled, o);
    assert final.queued == leveled.queued + final.queued[|leveled.queued|..];
  }

  lemma NoFaultNeverStops(existing: Option<WindowState>, o: Observation)
    requires o.fault.NoFault? && o.percent.Some? && |Levels(o.policy.thresholds)| <= 7
    ensures !Stages(existing, o).stopped && !ResetStage(Begin(existing, o), existing, o).stopped
  {
  }

  /** One evaluation follows the counter; a threshold alert names the last level crossed. */
  lemma ProcessFollowsCounter(existing: Option<WindowState>, o: Observation, levels: seq<nat>, j: nat)
    requires Levels(o.policy.thresholds) == levels && Decreasing(levels) && |levels| <= 7
    requires Evaluated(o) && StateMarked(existing, j) && j <= |levels|
    ensures var (queued, after) := Process(existing, o);
            var percent := ClampPercent(o.percent.value);
            var reset := ResetStage(Begin(existing, o), existing, o);
            var cooling := Cooling(reset.state, o.now, o.policy.cooldownMinutes);
            var armed, count := Min(j, Count(percent - REARM_HYSTERESIS, levels)), Count(percent, levels);
            && count <= |levels|
            && (forall a <- queued :: a.ThresholdAlert? ==>
                  count > armed && !cooling && a.threshold == levels[count - 1])
            && (o.fault.NoFault? ==> after.Some? && Marked(after.value.mask, Recount(j, percent, levels, cooling)))
            && (o.fault.NoFault? && count > armed && !cooling ==> ThresholdAlert(levels[count - 1]) in queued)
  {
    var reset := ResetStage(Begin(existing, o), existing, o);
    ResetStageKeepsMarks(existing, o, j);
    CountSplits(ClampPercent(o.percent.value), levels);
    if o.fault.NoFault? { NoFaultNeverStops(existing, o); }
    hide Begin;
    hide ResetStage;
    hide Marked;
    StagesFromReset(existing, o);
    if !reset.stopped {
      StagesFollowCounter(reset, ClampPercent(o.percent.value), levels, o, j);
    }
    hide Stages;
    hide Count;
    hide RearmAndCross;
    hide PredictiveStage;
    hide Cooling;
  }

  /** After the reset stage an evaluation is over, or goes through the other two stages. */
  lemma StagesFromReset(existing: Option<WindowState>, o: Observation)
    requires o.percent.Some? && |Levels(o.policy.thresholds)| <= 7
    ensures var reset := ResetStage(Begin(existing, o), existing, o);
            Stages(existing, o)
            == if reset.stopped then reset
               else PredictiveStage(RearmAndCross(reset, ClampPercent(o.percent.value), Levels(o.policy.thresholds), o), o)
  {
    hide RearmAndCross;
    hide Predicts;
    hide ResetStage;
  }

  lemma {:induction false} MaskFollowsCounter(os: seq<Observation>, thresholds: seq<nat>, i: nat)
    requires FixedThresholds(os, thresholds) && StorageWorks(os) && i <= |os|
    ensures StateMarked(StateAt(os, i), CounterAt(os, i)) && CounterAt(os, i) <= |Levels(thresholds)|
  {
    if i > 0 {
      MaskFollowsCounter(os, thresholds, i - 1);
      var o := os[i - 1];
      assert o in os;
      if Evaluated(o) {
        LevelsShape(thresholds);
        CountSplits(ClampPercent(o.percent.value), Levels(thresholds));
        ProcessFollowsCounter(StateAt(os, i - 1), o, Levels(thresholds), CounterAt(os, i - 1));
      }
    }
  }

  /** Under one threshold list the stored threshold bits are always a prefix, and they are
      the bits of the counter machine. */
  lemma BitmaskIsACounter(os: seq<Observation>, thresholds: seq<nat>, i: nat)
    requires FixedThresholds(os, thresholds) && StorageWorks(os) && i <= |os|
    ensures StateAt(os, i).Some? ==> Marked(StateAt(os, i).value.mask, CounterAt(os, i))
    ensures CounterAt(os, i) <= |thresholds|
  {
    MaskFollowsCounter(os, thresholds, i);
    if |os| > 0 { assert os[0] in os; LevelsShape(thresholds); }
  }

  lemma LevelOf(thresholds: seq<nat>, t: nat) returns (x: nat)
    requires ValidThresholds(thresholds) && t in thresholds
    ensures x < |Levels(thresholds)| && Levels(thresholds)[x] == t
  {
    LevelsShape(thresholds);
    assert t in Levels(thresholds);
    x :| 0 <= x < |Levels(thresholds)| && Levels(thresholds)[x] == t;
  }

  lemma QueuedMeansEvaluated(existing: Option<WindowState>, o: Observation)
    requires |Levels(o.policy.thresholds)| <= 7
    ensures Process(existing, o).0 != [] ==> Evaluated(o)
  {
    hide Evaluated;
    hide Stages;
  }

  /** A threshold alert names the smallest threshold at or above the percentage. */
  lemma AlertNamesTheTightestThreshold(os: seq<Observation>, thresholds: seq<nat>, i: nat, t: nat)
    requires FixedThresholds(os, thresholds) && StorageWorks(os) && i < |os|
    requires ThresholdAlert(t) in AlertsAt(os, i)
    ensures Evaluated(os[i]) && t in thresholds && PercentAt(os, i) <= t as real
    ensures forall u <- thresholds :: PercentAt(os, i) <= u as real ==> t <= u
  {
    assert os[i] in os;
    QueuedMeansEvaluated(StateAt(os, i), os[i]);
    hide Process;
    hide StateAt;
    hide CounterAt;
    hide ResetStage;
    hide Cooling;
    hide StateMarked;
    LevelsShape(thresholds);
    MaskFollowsCounter(os, thresholds, i);
    ProcessFollowsCounter(StateAt(os, i), os[i], Levels(thresholds), CounterAt(os, i));
    var levels := Levels(thresholds);
    CountSplits(PercentAt(os, i), levels);
    hide Levels;
    forall u <- thresholds | PercentAt(os, i) <= u as real ensures t <= u {
      var x := LevelOf(thresholds, u);
    }
  }

  /** An evaluation outside the cooldown leaves every crossed level marked. */
  lemma CrossedLevelsAreMarked(os: seq<Observation>, thresholds: seq<nat>, i: nat, t: nat)
    requires FixedThresholds(os, thresholds) && StorageWorks(os) && i < |os|
    requires Evaluated(os[i]) && !CoolingAt(os, i)
    requires t in thresholds && PercentAt(os, i) <= t as real
    ensures StateAt(os, i + 1).Some?
    ensures exists x: nat :: x < |Levels(thresholds)| && x < 8 && Levels(thresholds)[x] == t
                             && Has(StateAt(os, i + 1).value.mask, x)
  {
    assert os[i] in os;
    LevelsShape(thresholds);
    MaskFollowsCounter(os, thresholds, i);
    MaskFollowsCounter(os, thresholds, i + 1);
    ProcessFollowsCounter(StateAt(os, i), os[i], Levels(thresholds), CounterAt(os, i));
    var levels := Levels(thresholds);
    CountSplits(PercentAt(os, i), levels);
    var x := LevelOf(thresholds, t);
    assert CounterAt(os, i + 1) >= Count(PercentAt(os, i), levels) > x;
    MarkedBits(StateAt(os, i + 1).value.mask, CounterAt(os, i + 1));
    assert Has(StateAt(os, i + 1).value.mask, x);
  }

  lemma {:induction false} DropMeansRecovery(os: seq<Observation>, thresholds: seq<nat>, a: nat, b: nat,
                                             x: nat) returns (m: nat)
    requires FixedThresholds(os, thresholds) && a <= b <= |os| && x < |Levels(thresholds)|
    requires CounterAt(os, a) > x >= CounterAt(os, b)
    ensures a <= m < b && Evaluated(os[m]) && PercentAt(os, m) > Levels(thresholds)[x] as real + REARM_HYSTERESIS
    decreases b - a
  {
    if CounterAt(os, b - 1) <= x {
      m := DropMeansRecovery(os, thresholds, a, b - 1, x);
    } else {
      m := b - 1;
      assert os[m] in os;
      LevelsShape(thresholds);
      CountSplits(PercentAt(os, m) - REARM_HYSTERESIS, Levels(thresholds));
      CountSplits(PercentAt(os, m), Levels(thresholds));
    }
  }

  /** What a threshold alert says about the counter. */
  lemma AlertMovesCounter(os: seq<Observation>, thresholds: seq<nat>, i: nat, t: nat) returns (x: nat)
    requires FixedThresholds(os, thresholds) && StorageWorks(os) && i < |os|
    requires ThresholdAlert(t) in AlertsAt(os, i)
    ensures x < |Levels(thresholds)| && Levels(thresholds)[x] == t
    ensures CounterAt(os, i) <= x < CounterAt(os, i + 1)
  {
    assert os[i] in os;
    QueuedMeansEvaluated(StateAt(os, i), os[i]);
    hide Process;
    hide StateAt;
    hide ResetStage;
    hide Cooling;
    hide StateMarked;
    LevelsShape(thresholds);
    var levels := Levels(thresholds);
    MaskFollowsCounter(os, thresholds, i);
    ProcessFollowsCounter(StateAt(os, i), os[i], levels, CounterAt(os, i));
    CountIsMonotone(PercentAt(os, i) - REARM_HYSTERESIS, PercentAt(os, i), levels);
    x := Count(PercentAt(os, i), levels) - 1;
  }

  lemma SameLevel(os: seq<Observation>, thresholds: seq<nat>, x: nat, y: nat)
    requires FixedThresholds(os, thresholds) && os != []
    requires x < |Levels(thresholds)| && y < |Levels(thresholds)| && Levels(thresholds)[x] == Levels(thresholds)[y]
    ensures x == y
  {
    assert os[0] in os;
    LevelsShape(thresholds);
  }

  /** No level alerts twice unless usage was seen above it, with the margin, in between. */
  lemma NoRepeatedAlert(os: seq<Observation>, thresholds: seq<nat>, i: nat, k: nat, t: nat) returns (m: nat)
    requires FixedThresholds(os, thresholds) && StorageWorks(os) && i < k < |os|
    requires ThresholdAlert(t) in AlertsAt(os, i) && ThresholdAlert(t) in AlertsAt(os, k)
    ensures i < m < k && Evaluated(os[m]) && PercentAt(os, m) > t as real + REARM_HYSTERESIS
  {
    var x := AlertMovesCounter(os, thresholds, i, t);
    var y := AlertMovesCounter(os, thresholds, k, t);
    SameLevel(os, thresholds, x, y);
    m := DropMeansRecovery(os, thresholds, i + 1, k, x);
  }

  // ---------------------------------------------------------------- spacing

  /** One evaluation under a cooldown queues at most one alert, only once the cooldown has
      passed, and an attempt that was queued is remembered. */
  lemma AtMostOneAlert(existing: Option<WindowState>, o: Observation)
    requires |Levels(o.policy.thresholds)| <= 7 && o.policy.cooldownMinutes > 0
    ensures var (queued, after) := Process(existing, o);
            && |queued| <= 1
            && (queued != [] && !o.fault.SaveFails? ==> after.Some? && after.value.lastAttempt == Some(o.now))
            && (queued != [] && existing.Some? && existing.value.lastAttempt.Some? ==>
                  o.now - existing.value.lastAttempt.value >= o.policy.cooldownMinutes * 60_000)
            && (queued == [] && existing.Some? ==>
                  after.Some? && after.value.lastAttempt == existing.value.lastAttempt)
  {
    if Evaluated(o) {
      var p0 := Begin(existing, o);
      var p1 := ResetStage(p0, existing, o);
      var p2 := LevelStage(p1, o);
      ResetStageIsSpaced(p0, existing, o);
      LevelStageIsSpaced(p1, o);
      PredictiveStageIsSpaced(p2, o);
      hide ResetStage;
      hide LevelStage;
      hide PredictiveStage;
    }
  }

  lemma ResetStageIsSpaced(p: Progress, existing: Option<WindowState>, o: Observation)
    requires !p.stopped
    ensures Spaced(p, ResetStage(p, existing, o), o)
  {
    hide ResetCompleted;
    hide Cooling;
  }

  lemma LevelStageIsSpaced(p: Progress, o: Observation)
    requires o.percent.Some? && |Levels(o.policy.thresholds)| <= 7
    ensures Spaced(p, LevelStage(p, o), o)
  {
    if !p.stopped {
      var levels, percent := Levels(o.policy.thresholds), ClampPercent(o.percent.value);
      var armed := WithMask(p, Rearmed(p.state.mask, percent, levels, |levels|));
      assert Cooling(armed.state, o.now, o.policy.cooldownMinutes) == Cooling(p.state, o.now, o.policy.cooldownMinutes);
      hide Cooling;
      hide Rearmed;
      hide CrossedMask;
      hide MostSevere;
    }
  }

  lemma PredictiveStageIsSpaced(p: Progress, o: Observation)
    ensures Spaced(p, PredictiveStage(p, o), o)
  {
    hide Predicts;
    hide Cooling;
  }

  /** `q` follows `p` with at most one more alert, queued outside the cooldown. */
  ghost predicate Spaced(p: Progress, q: Progress, o: Observation) {
    var cooling := Cooling(p.state, o.now, o.policy.cooldownMinutes);
    || (q.queued == p.queued && q.state.lastAttempt == p.state.lastAttempt && (q.stopped ==> p.stopped || !cooling))
    || (|q.queued| == |p.queued| + 1 && !q.stopped && q.state.lastAttempt == Some(o.now) && !cooling)
  }

  ghost predicate UnderCooldown(os: seq<Observation>) {
    forall o <- os :: o.policy.cooldownMinutes > 0 && !o.fault.SaveFails?
  }

  ghost predicate AttemptedSince(s: Option<WindowState>, at: Instant) {
    s.Some? && s.value.lastAttempt.Some? && s.value.lastAttempt.value >= at
  }

  lemma AttemptStays(existing: Option<WindowState>, o: Observation, at: Instant)
    requires |Levels(o.policy.thresholds)| <= 7 && o.policy.cooldownMinutes > 0 && !o.fault.SaveFails?
    requires AttemptedSince(existing, at) || (Process(existing, o).0 != [] && o.now == at)
    ensures AttemptedSince(Process(existing, o).1, at)
  {
    AtMostOneAlert(existing, o);
  }

  lemma {:induction false} AttemptIsRemembered(os: seq<Observation>, i: nat, k: nat)
    requires ValidRun(os) && UnderCooldown(os) && i < k <= |os| && AlertsAt(os, i) != []
    ensures AttemptedSince(StateAt(os, k), os[i].now)
    decreases k - i
  {
    hide Process;
    var o := os[k - 1];
    assert o in os;
    if i < k - 1 { AttemptIsRemembered(os, i, k - 1); }
    AttemptStays(StateAt(os, k - 1), o, os[i].now);
  }

  /** Under a cooldown each evaluation queues at most one alert, and two alerts for one
      window are at least the cooldown apart, even if the clock runs backwards. */
  lemma AlertsAreSpaced(os: seq<Observation>, i: nat, k: nat)
    requires ValidRun(os) && UnderCooldown(os) && i < k < |os|
    requires AlertsAt(os, i) != [] && AlertsAt(os, k) != []
    ensures |AlertsAt(os, i)| == 1 && |AlertsAt(os, k)| == 1
    ensures os[k].now - os[i].now >= os[k].policy.cooldownMinutes * 60_000 > 0
  {
    assert os[i] in os && os[k] in os;
    AttemptIsRemembered(os, i, k);
    AtMostOneAlert(StateAt(os, i), os[i]);
    AtMostOneAlert(StateAt(os, k), os[k]);
  }

  /** Without a cooldown the claim fails: one evaluation can queue three alerts. */
  lemma NoCooldownNoSpacing()
    ensures var policy := Policy(true, [50], true, true, 0);
            var before := WindowState(Some(0), 0, None);
            var o := Observation(10, policy, false, true, Some(40.0), Some(100),
                                 Some(Forecast(true, High, Some(50))), NoFault);
            Process(Some(before), o).0 == [ResetAlert, ThresholdAlert(50), PredictiveAlert]
  {
    var policy := Policy(true, [50], true, true, 0);
    var before := WindowState(Some(0), 0, None);
    var o := Observation(10, policy, false, true, Some(40.0), Some(100),
                         Some(Forecast(true, High, Some(50))), NoFault);
    assert Levels([50]) == [50] by { assert [50][1..] == []; assert Levels([]) == []; }
    var p := ResetStage(Begin(Some(before), o), Some(before), o);
    assert p == Progress(false, WindowState(Some(0), 0, Some(10)), [ResetAlert]);
    assert Rearmed(0, 40.0, [50], 1) == 0;
    assert CrossedMask(40.0, [50], 1) == 1;
    assert MostSevere(1, [50], 1) == 50;
    assert RearmAndCross(p, 40.0, [50], o)
        == Progress(false, WindowState(Some(0), 1, Some(10)), [ResetAlert, ThresholdAlert(50)]);
  }

  // ------------------------------------------------------- the predictive alert

  /** The predictive bit is set by a predictive alert and cleared by a completed reset only. */
  lemma PredictiveBit(existing: Option<WindowState>, o: Observation)
    requires |Levels(o.policy.thresholds)| <= 7
    requires o.fault.NoFault? || o.fault.ReadFails?
    ensures var (queued, after) := Process(existing, o);
            && (PredictiveAlert in queued ==>
                  && Evaluated(o) && after.Some? && Has(after.value.mask, 7)
                  && (existing.Some? && Has(existing.value.mask, 7) ==> ResetCompleted(existing, o)))
            && (existing.Some? && Has(existing.value.mask, 7) && !(Evaluated(o) && ResetCompleted(existing, o)) ==>
                  after.Some? && Has(after.value.mask, 7))
  {
    if Evaluated(o) {
      NoFaultNeverStops(existing, o);
      var p1 := ResetStage(Begin(existing, o), existing, o);
      LevelStageKeepsPredictiveBit(p1, ClampPercent(o.percent.value), Levels(o.policy.thresholds), o);
      var p2 := LevelStage(p1, o);
      PredictiveStageBit(p2, o);
      ResetStageBit(existing, o);
    }
  }

  lemma ResetStageBit(existing: Option<WindowState>, o: Observation)
    requires o.fault.NoFault?
    ensures var p := ResetStage(Begin(existing, o), existing, o);
            && PredictiveAlert !in p.queued
            && (existing.Some? && Has(existing.value.mask, 7) && !ResetCompleted(existing, o) ==> Has(p.state.mask, 7))
  {
  }

  lemma LevelStageKeepsPredictiveBit(p: Progress, percent: real, levels: seq<nat>, o: Observation)
    requires |levels| <= 7 && o.fault.NoFault?
    ensures var q := RearmAndCross(p, percent, levels, o);
            && (Has(q.state.mask, 7) <==> Has(p.state.mask, 7))
            && (PredictiveAlert in q.queued <==> PredictiveAlert in p.queued)
  {
    var mask := Rearmed(p.state.mask, percent, levels, |levels|);
    var crossed := CrossedMask(percent, levels, |levels|);
    RearmedBits(p.state.mask, percent, levels, |levels|, 7);
    CrossedBits(percent, levels, |levels|, 7);
    HasOr(mask, crossed, 7);
  }

  lemma PredictiveStageBit(p: Progress, o: Observation)
    requires o.fault.NoFault? && !p.stopped
    ensures var q := PredictiveStage(p, o);
            && (Has(p.state.mask, 7) ==> q == p)
            && (PredictiveAlert in q.queued ==> PredictiveAlert in p.queued || (Has(q.state.mask, 7) && !Has(p.state.mask, 7)))
  {
    HasOr(p.state.mask, PREDICTIVE_NOTIFICATION_BIT, 7);
    HasBit(7, 7);
  }

  ghost predicate Predicted(s: Option<WindowState>) { s.Some? && Has(s.value.mask, 7) }

  lemma BitStays(existing: Option<WindowState>, o: Observation)
    requires |Levels(o.policy.thresholds)| <= 7
    requires o.fault.NoFault? || o.fault.ReadFails?
    requires (Predicted(existing) && !(Evaluated(o) && ResetCompleted(existing, o)))
             || PredictiveAlert in Process(existing, o).0
    ensures Predicted(Process(existing, o).1)
  {
    PredictiveBit(existing, o);
  }

  lemma {:induction false} PredictionIsRemembered(os: seq<Observation>, i: nat, k: nat)
    requires ValidRun(os) && StorageWorks(os) && i < k <= |os|
    requires PredictiveAlert in AlertsAt(os, i)
    requires forall m :: i < m < k ==> !(Evaluated(os[m]) && ResetCompleted(StateAt(os, m), os[m]))
    ensures Predicted(StateAt(os, k))
    decreases k - i
  {
    hide Process;
    var o := os[k - 1];
    assert o in os;
    if i < k - 1 { PredictionIsRemembered(os, i, k - 1); }
    BitStays(StateAt(os, k - 1), o);
  }

  /** A predictive alert repeats only after a completed reset. */
  lemma {:induction false} PredictiveAlertNeedsAReset(os: seq<Observation>, i: nat, k: nat)
    requires ValidRun(os) && StorageWorks(os) && i < k < |os|
    requires PredictiveAlert in AlertsAt(os, i) && PredictiveAlert in AlertsAt(os, k)
    ensures exists m :: i < m <= k && Evaluated(os[m]) && ResetCompleted(StateAt(os, m), os[m])
  {
    assert os[k] in os;
    PredictiveBit(StateAt(os, k), os[k]);
    if forall m :: i < m < k ==> !(Evaluated(os[m]) && ResetCompleted(StateAt(os, m), os[m])) {
      PredictionIsRemembered(os, i, k);
      assert Evaluated(os[k]) && ResetCompleted(StateAt(os, k), os[k]);
    }
  }
}
