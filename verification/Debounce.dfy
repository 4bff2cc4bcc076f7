/** The bounded trailing debounce of local log changes (crates/usage-daemon/src/local_logs.rs).
    Instants and durations are integers; the file watcher and the event queue are not modelled. */
module Debounce {
  import opened Numbers
  import opened Wrappers

  datatype Target = Target(debounce: nat, maximumLatency: nat, minimumRefreshInterval: nat)

  datatype PendingRefresh = PendingRefresh(firstChange: int, deadline: int)

  datatype State = State(targets: map<string, Target>, pending: map<string, PendingRefresh>, lastRefresh: map<string, int>)

  /** What the loop's `select` delivers: changed providers, new targets, or a deadline that passed. */
  datatype Event =
    | Changed(now: int, providers: set<string>)
    | Retargeted(now: int, targets: map<string, Target>, providers: set<string>)
    | Fired(now: int)

  /** One provider's pending refresh after a change at `now`. */
  function Rescheduled(t: Target, pending: Option<PendingRefresh>, last: Option<int>, now: int): PendingRefresh {
    var first := if pending.Some? then pending.value.firstChange else now;
    var rateLimited := if last.Some? then last.value + t.minimumRefreshInterval else now;
    PendingRefresh(first, Max(Min(now + t.debounce, first + t.maximumLatency), rateLimited))
  }

  function Lookup<V>(m: map<string, V>, p: string): Option<V> {
    if p in m then Some(m[p]) else None
  }

  function Scheduled(s: State, now: int, providers: set<string>): State {
    s.(pending := map p | p in s.pending.Keys + providers * s.targets.Keys ::
         if p in providers && p in s.targets
         then Rescheduled(s.targets[p], Lookup(s.pending, p), Lookup(s.lastRefresh, p), now)
         else s.pending[p])
  }

  function Due(s: State, now: int): set<string> {
    set p | p in s.pending && s.pending[p].deadline <= now
  }

  function Retained<V>(m: map<string, V>, active: set<string>): map<string, V> {
    map p | p in m && p in active :: m[p]
  }

  function Step(s: State, e: Event): State {
    match e
    case Changed(now, providers) => Scheduled(s, now, providers)
    case Retargeted(now, targets, providers) =>
      Scheduled(State(targets, Retained(s.pending, targets.Keys), Retained(s.lastRefresh, targets.Keys)), now, providers)
    case Fired(now) =>
      var due := Due(s, now);
      s.(pending := s.pending - due, lastRefresh := s.lastRefresh + map p | p in due :: now)
  }

  // ----- The loop's state, updated in place -----

  class ChangeLog {
    var targets: map<string, Target>
    var pending: map<string, PendingRefresh>
    var lastRefresh: map<string, int>

    function View(): State
      reads this
    {
      State(targets, pending, lastRefresh)
    }

    constructor (targets: map<string, Target>)
      ensures View() == Start(targets)
    {
      this.targets, pending, lastRefresh := targets, map[], map[];
    }

    /** `schedule_providers`. */
    method ScheduleProviders(now: int, providers: set<string>)
      modifies `pending
      ensures View() == Scheduled(old(View()), now, providers)
    {
      var rest := providers;
      ghost var s := View();
      while rest != {}
        invariant rest <= providers && targets == s.targets && lastRefresh == s.lastRefresh
        invariant pending == Scheduled(s, now, providers - rest).pending
        decreases |rest|
      {
        var p :| p in rest;
        rest := rest - {p};
        if p in targets {
          assert p !in providers - rest - {p};
          pending := pending[p := Rescheduled(targets[p], Lookup(pending, p), Lookup(lastRefresh, p), now)];
        }
      }
      assert providers - rest == providers;
    }

    /** The deadline arm; returns the providers whose refresh is spawned. */
    method FireDeadline(now: int) returns (due: set<string>)
      modifies `pending, `lastRefresh
      ensures due == Due(old(View()), now) && View() == Step(old(View()), Fired(now))
    {
      due := set p | p in pending && pending[p].deadline <= now;
      var rest := due;
      ghost var s := View();
      while rest != {}
        invariant rest <= due && targets == s.targets
        invariant pending == s.pending - (due - rest)
        invariant lastRefresh == s.lastRefresh + map p | p in due - rest :: now
        decreases |rest|
      {
        var p :| p in rest;
        rest := rest - {p};
        pending := pending - {p};
        lastRefresh := lastRefresh[p := now];
      }
      assert due - rest == due;
    }

    /** The configuration arm. */
    method Retarget(now: int, newTargets: map<string, Target>, newlyAvailable: set<string>)
      modifies this
      ensures View() == Step(old(View()), Retargeted(now, newTargets, newlyAvailable))
    {
      targets := newTargets;
      pending := map p | p in pending && p in newTargets :: pending[p];
      lastRefresh := map p | p in lastRefresh && p in newTargets :: lastRefresh[p];
      ScheduleProviders(now, newlyAvailable);
    }
  }

  // ----- Runs, seen by one provider -----

  function Start(targets: map<string, Target>): State {
    State(targets, map[], map[])
  }

  function After(s: State, events: seq<Event>): State {
    if events == [] then s else Step(After(s, events[..|events| - 1]), events[|events| - 1])
  }

  /** What the loop knows about one provider. */
  datatype Entry = Entry(pending: Option<PendingRefresh>, last: Option<int>)

  function EntryOf(s: State, p: string): Entry {
    Entry(Lookup(s.pending, p), Lookup(s.lastRefresh, p))
  }

  predicate Reports(e: Event, p: string) {
    !e.Fired? && p in e.providers
  }

  predicate Refreshes(entry: Entry, e: Event) {
    e.Fired? && entry.pending.Some? && entry.pending.value.deadline <= e.now
  }

  function EntryStep(t: Target, entry: Entry, e: Event, reported: bool): Entry {
    if Refreshes(entry, e) then Entry(None, Some(e.now))
    else if reported then entry.(pending := Some(Rescheduled(t, entry.pending, entry.last, e.now)))
    else entry
  }

  /** `p` keeps the target `t`, whatever happens to the others. */
  predicate KeepsTarget(e: Event, p: string, t: Target) {
    e.Retargeted? ==> p in e.targets && e.targets[p] == t
  }

  lemma StepByProvider(s: State, e: Event, p: string, t: Target)
    requires p in s.targets && s.targets[p] == t && KeepsTarget(e, p, t)
    ensures var next := Step(s, e);
      && p in next.targets && next.targets[p] == t
      && EntryOf(next, p) == EntryStep(t, EntryOf(s, p), e, Reports(e, p))
  {
  }

  /** New targets: a provider that has none any more is forgotten altogether, its pending change and its last
      refresh; one that has one keeps both, and its pending change is rescheduled exactly when it is reported. */
  lemma RetargetedEntry(s: State, now: int, targets: map<string, Target>, providers: set<string>, p: string)
    ensures var entry := EntryOf(Step(s, Retargeted(now, targets, providers)), p);
            if p !in targets then entry == Entry(None, None)
            else
              && entry.last == EntryOf(s, p).last
              && (p !in providers ==> entry == EntryOf(s, p))
              && (p in providers ==> entry.pending == Some(Rescheduled(targets[p], EntryOf(s, p).pending, entry.last, now)))
  {
  }

  /** A run from the start in which `p` keeps its target and time does not go back. */
  ghost predicate Run(targets: map<string, Target>, events: seq<Event>, p: string, t: Target) {
    && p in targets && targets[p] == t
    && (forall k :: 0 <= k < |events| ==> KeepsTarget(events[k], p, t))
    && forall i, j :: 0 <= i < j < |events| ==> events[i].now <= events[j].now
  }

  function At(targets: map<string, Target>, events: seq<Event>, k: nat, p: string): Entry
    requires k <= |events|
  {
    EntryOf(After(Start(targets), events[..k]), p)
  }

  lemma {:induction false} TargetStays(targets: map<string, Target>, events: seq<Event>, k: nat, p: string, t: Target)
    requires Run(targets, events, p, t) && k <= |events|
    ensures var s := After(Start(targets), events[..k]); p in s.targets && s.targets[p] == t
  {
    if k > 0 {
      TargetStays(targets, events, k - 1, p, t);
      assert events[..k][..k - 1] == events[..k - 1];
      StepByProvider(After(Start(targets), events[..k - 1]), events[k - 1], p, t);
    }
  }

  lemma EntryMoves(targets: map<string, Target>, events: seq<Event>, k: nat, p: string, t: Target)
    requires Run(targets, events, p, t) && k < |events|
    ensures At(targets, events, k + 1, p) == EntryStep(t, At(targets, events, k, p), events[k], Reports(events[k], p))
  {
    TargetStays(targets, events, k, p, t);
    assert events[..k + 1][..k] == events[..k];
    StepByProvider(After(Start(targets), events[..k]), events[k], p, t);
  }

  /** The deadline timer of `p` is served at most `lateness` after it is due: nothing later is handled
      while `p` is pending. With lateness 0, due timers are served before later events. */
  ghost predicate Timely(targets: map<string, Target>, events: seq<Event>, p: string, lateness: nat) {
    forall k :: 0 <= k < |events| && At(targets, events, k, p).pending.Some? ==>
      events[k].now <= At(targets, events, k, p).pending.value.deadline + lateness
  }

  // ----- Bounds -----

  /** No later than this a change reported at `now` is due: the first unserved change plus the maximum
      latency, or the last refresh plus the minimum interval. */
  function DueBy(t: Target, entry: Entry, now: int): int {
    var first := if entry.pending.Some? then entry.pending.value.firstChange else now;
    var latest := first + t.maximumLatency;
    if entry.last.Some? then Max(latest, entry.last.value + t.minimumRefreshInterval) else latest
  }

  predicate Spaced(t: Target, entry: Entry) {
    entry.pending.Some? && entry.last.Some? ==>
      entry.pending.value.deadline >= entry.last.value + t.minimumRefreshInterval
  }

  predicate Bounded(t: Target, entry: Entry, lateness: nat) {
    entry.pending.Some? && (entry.last.Some? || lateness == 0) ==>
      entry.pending.value.deadline <= DueBy(t, entry, 0)
  }

  lemma {:induction false} AlwaysSpaced(targets: map<string, Target>, events: seq<Event>, k: nat, p: string, t: Target)
    requires Run(targets, events, p, t) && k <= |events|
    ensures Spaced(t, At(targets, events, k, p))
  {
    if k > 0 {
      AlwaysSpaced(targets, events, k - 1, p, t);
      EntryMoves(targets, events, k - 1, p, t);
    }
  }

  lemma StepKeepsBounded(t: Target, entry: Entry, e: Event, reported: bool, lateness: nat)
    requires Bounded(t, entry, lateness)
    requires entry.pending.Some? ==> e.now <= entry.pending.value.deadline + lateness
    ensures Bounded(t, EntryStep(t, entry, e, reported), lateness)
  {
  }

  lemma {:induction false} AlwaysBounded(targets: map<string, Target>, events: seq<Event>, k: nat, p: string,
                                         t: Target, lateness: nat)
    requires Run(targets, events, p, t) && Timely(targets, events, p, lateness) && k <= |events|
    ensures Bounded(t, At(targets, events, k, p), lateness)
  {
    if k > 0 {
      AlwaysBounded(targets, events, k - 1, p, t, lateness);
      EntryMoves(targets, events, k - 1, p, t);
      hide At;
      StepKeepsBounded(t, At(targets, events, k - 1, p), events[k - 1], Reports(events[k - 1], p), lateness);
    }
  }

  ghost predicate RefreshedAt(targets: map<string, Target>, events: seq<Event>, j: nat, p: string)
    requires j < |events|
  {
    Refreshes(At(targets, events, j, p), events[j])
  }

  /** From a pending refresh at `i` on: until it is served, it keeps its first change and its bound. */
  lemma {:induction false} PendingUntilServed(targets: map<string, Target>, events: seq<Event>, i: nat, m: nat,
                                              p: string, t: Target)
    requires Run(targets, events, p, t) && i <= m <= |events| && At(targets, events, i, p).pending.Some?
    requires forall j :: i <= j < m ==> !RefreshedAt(targets, events, j, p)
    ensures var (was, entry) := (At(targets, events, i, p), At(targets, events, m, p));
            entry.pending.Some? && entry.last == was.last
            && entry.pending.value.firstChange == was.pending.value.firstChange
    decreases m
  {
    hide At;
    hide Run;
    if i < m {
      PendingUntilServed(targets, events, i, m - 1, p, t);
      EntryMoves(targets, events, m - 1, p, t);
      assert !RefreshedAt(targets, events, m - 1, p);
    }
  }

  /** The first refresh in a stretch of the run. */
  lemma {:induction false} FirstRefresh(targets: map<string, Target>, events: seq<Event>, i: nat, m: nat,
                                        p: string) returns (j: nat)
    requires i <= m <= |events|
    ensures i <= j <= m && (forall k :: i <= k < j ==> !RefreshedAt(targets, events, k, p))
    ensures j < m ==> RefreshedAt(targets, events, j, p)
    decreases m - i
  {
    j := i;
    if i < m && !RefreshedAt(targets, events, i, p) {
      j := FirstRefresh(targets, events, i + 1, m, p);
    }
  }

  /** No change is dropped: it is followed by a refresh, or still pending at the end. */
  lemma NoChangeIsDropped(targets: map<string, Target>, events: seq<Event>, i: nat, p: string, t: Target)
    requires Run(targets, events, p, t) && i < |events| && Reports(events[i], p)
    ensures || (exists j :: i < j < |events| && RefreshedAt(targets, events, j, p))
            || At(targets, events, |events|, p).pending.Some?
  {
    EntryMoves(targets, events, i, p, t);
    var j := FirstRefresh(targets, events, i + 1, |events|, p);
    if j == |events| {
      PendingUntilServed(targets, events, i + 1, |events|, p, t);
    }
  }

  /** A change is served by its bound, plus however late timers are served. A provider that was never
      refreshed needs timers served on time. */
  lemma ChangeIsServedInTime(targets: map<string, Target>, events: seq<Event>, i: nat, m: nat, p: string,
                             t: Target, lateness: nat)
    requires Run(targets, events, p, t) && Timely(targets, events, p, lateness)
    requires i < m < |events| && Reports(events[i], p)
    requires lateness == 0 || At(targets, events, i, p).last.Some?
    requires events[m].now > DueBy(t, At(targets, events, i, p), events[i].now) + lateness
    ensures exists j :: i < j < m && RefreshedAt(targets, events, j, p)
                        && events[j].now <= DueBy(t, At(targets, events, i, p), events[i].now) + lateness
  {
    hide At;
    hide Run;
    hide Bounded;
    hide EntryStep;
    EntryMoves(targets, events, i, p, t);
    ReportedEntry(t, At(targets, events, i, p), events[i]);
    var j := FirstRefresh(targets, events, i + 1, m, p);
    PendingUntilServed(targets, events, i + 1, j, p, t);
    AlwaysBounded(targets, events, j, p, t, lateness);
    DueWhilePending(t, At(targets, events, i + 1, p), At(targets, events, j, p), lateness);
    assert events[j].now <= At(targets, events, j, p).pending.value.deadline + lateness;
  }

  lemma ReportedEntry(t: Target, entry: Entry, e: Event)
    requires !e.Fired?
    ensures var next := EntryStep(t, entry, e, true);
            next.pending.Some? && next.last == entry.last && DueBy(t, next, 0) == DueBy(t, entry, e.now)
  {
  }

  lemma DueWhilePending(t: Target, was: Entry, entry: Entry, lateness: nat)
    requires was.pending.Some? && entry.pending.Some? && entry.last == was.last
    requires entry.pending.value.firstChange == was.pending.value.firstChange
    requires Bounded(t, entry, lateness) && (lateness == 0 || was.last.Some?)
    ensures entry.pending.value.deadline <= DueBy(t, was, 0)
  {
  }

  /** Until it is served or another change comes, a pending refresh stays as it is. */
  lemma {:induction false} UnchangedUntilServed(targets: map<string, Target>, events: seq<Event>, i: nat, m: nat,
                                                p: string, t: Target)
    requires Run(targets, events, p, t) && i <= m <= |events|
    requires forall j :: i <= j < m ==> !RefreshedAt(targets, events, j, p) && !Reports(events[j], p)
    ensures At(targets, events, m, p) == At(targets, events, i, p)
    decreases m
  {
    hide At;
    hide Run;
    if i < m {
      UnchangedUntilServed(targets, events, i, m - 1, p, t);
      EntryMoves(targets, events, m - 1, p, t);
      assert !RefreshedAt(targets, events, m - 1, p) && !Reports(events[m - 1], p);
    }
  }

  /** When a change is due if no other follows it: after the debounce, or once the rate limit allows. */
  function QuietBy(t: Target, entry: Entry, now: int): int {
    if entry.last.Some? then Max(now + t.debounce, entry.last.value + t.minimumRefreshInterval) else now + t.debounce
  }

  /** The last change of a burst does not wait for the maximum latency: when no other follows, it is
      served after the debounce or the rate limit. */
  lemma QuietChangeIsServedPromptly(targets: map<string, Target>, events: seq<Event>, i: nat, m: nat, p: string,
                                    t: Target, lateness: nat)
    requires Run(targets, events, p, t) && Timely(targets, events, p, lateness)
    requires i < m < |events| && Reports(events[i], p) && forall j :: i < j < m ==> !Reports(events[j], p)
    requires events[m].now > QuietBy(t, At(targets, events, i, p), events[i].now) + lateness
    ensures exists j :: i < j < m && RefreshedAt(targets, events, j, p)
                        && events[j].now <= QuietBy(t, At(targets, events, i, p), events[i].now) + lateness
  {
    hide At;
    hide Run;
    hide EntryStep;
    EntryMoves(targets, events, i, p, t);
    QuietEntry(t, At(targets, events, i, p), events[i]);
    var j := FirstRefresh(targets, events, i + 1, m, p);
    UnchangedUntilServed(targets, events, i + 1, j, p, t);
    assert events[j].now <= At(targets, events, j, p).pending.value.deadline + lateness;
  }

  lemma QuietEntry(t: Target, entry: Entry, e: Event)
    requires !e.Fired?
    ensures var next := EntryStep(t, entry, e, true);
            next.pending.Some? && next.pending.value.deadline <= QuietBy(t, entry, e.now)
  {
  }

  lemma PendingAfterStep(t: Target, entry: Entry, e: Event, reported: bool)
    ensures var next := EntryStep(t, entry, e, reported);
            next.pending.Some? ==>
              && !Refreshes(entry, e)
              && if entry.pending.Some? then next.pending.value.firstChange == entry.pending.value.firstChange
                 else reported && next.pending.value.firstChange == e.now
  {
  }

  /** A pending refresh counts from a reported change that no refresh has served since. */
  lemma {:induction false} FirstChangeIsAReport(targets: map<string, Target>, events: seq<Event>, k: nat, p: string,
                                                t: Target) returns (first: nat)
    requires Run(targets, events, p, t) && k <= |events| && At(targets, events, k, p).pending.Some?
    ensures first < k && Reports(events[first], p)
    ensures events[first].now == At(targets, events, k, p).pending.value.firstChange
    ensures forall j :: first < j < k ==> !RefreshedAt(targets, events, j, p)
  {
    hide *;
    if k == 0 {
      NothingPendingAtFirst(targets, events, p);
      assert false;
    } else {
      OneStepBack(targets, events, k, p, t);
      if At(targets, events, k - 1, p).pending.Some? {
        first := FirstChangeIsAReport(targets, events, k - 1, p, t);
      } else {
        first := k - 1;
      }
    }
  }

  lemma NothingPendingAtFirst(targets: map<string, Target>, events: seq<Event>, p: string)
    ensures At(targets, events, 0, p) == Entry(None, None)
  {
  }

  lemma OneStepBack(targets: map<string, Target>, events: seq<Event>, k: nat, p: string, t: Target)
    requires Run(targets, events, p, t) && 0 < k <= |events| && At(targets, events, k, p).pending.Some?
    ensures var before, first := At(targets, events, k - 1, p), At(targets, events, k, p).pending.value.firstChange;
      && !RefreshedAt(targets, events, k - 1, p)
      && if before.pending.Some? then first == before.pending.value.firstChange
         else Reports(events[k - 1], p) && first == events[k - 1].now
  {
    EntryMoves(targets, events, k - 1, p, t);
    PendingAfterStep(t, At(targets, events, k - 1, p), events[k - 1], Reports(events[k - 1], p));
    hide At;
    hide Run;
    hide EntryStep;
    hide Refreshes;
    hide Reports;
  }

  lemma {:induction false} NothingPending(targets: map<string, Target>, events: seq<Event>, i: nat, m: nat, p: string,
                                          t: Target)
    requires Run(targets, events, p, t) && i <= m <= |events| && At(targets, events, i, p).pending.None?
    requires forall j :: i <= j < m ==> !Reports(events[j], p)
    ensures At(targets, events, m, p).pending.None?
    decreases m
  {
    hide At;
    hide Run;
    if i < m {
      NothingPending(targets, events, i, m - 1, p, t);
      EntryMoves(targets, events, m - 1, p, t);
      assert !Reports(events[m - 1], p);
    }
  }

  /** A refresh waits for quiet, but not past the bound on latency: it comes no earlier than the debounce
      after the latest change before it, or the maximum latency after the first change it serves. */
  lemma RefreshWaitsForQuiet(targets: map<string, Target>, events: seq<Event>, i: nat, j: nat, p: string, t: Target)
    requires Run(targets, events, p, t) && i < j < |events| && RefreshedAt(targets, events, j, p)
    requires Reports(events[i], p) && forall k :: i < k < j ==> !Reports(events[k], p)
    ensures exists first :: (
      && 0 <= first <= i && Reports(events[first], p)
      && (forall k :: first < k < j ==> !RefreshedAt(targets, events, k, p))
      && (events[j].now >= events[i].now + t.debounce || events[j].now >= events[first].now + t.maximumLatency))
  {
    hide At;
    hide Run;
    EntryMoves(targets, events, i, p, t);
    var served := FirstRefresh(targets, events, i + 1, j, p);
    if served < j {
      EntryMoves(targets, events, served, p, t);
      NothingPending(targets, events, served + 1, j, p, t);
    }
    UnchangedUntilServed(targets, events, i + 1, j, p, t);
    var first := FirstChangeIsAReport(targets, events, j, p, t);
    assert first <= i;
  }

  lemma {:induction false} LastStays(targets: map<string, Target>, events: seq<Event>, i: nat, m: nat, p: string,
                                     t: Target)
    requires Run(targets, events, p, t) && i < m <= |events| && RefreshedAt(targets, events, i, p)
    ensures At(targets, events, m, p).last.Some? && At(targets, events, m, p).last.value >= events[i].now
    decreases m
  {
    EntryMoves(targets, events, m - 1, p, t);
    if i + 1 < m {
      LastStays(targets, events, i, m - 1, p, t);
    }
  }

  /** Refreshes of one provider are at least the minimum interval apart, however late timers are. */
  lemma RefreshesAreSpaced(targets: map<string, Target>, events: seq<Event>, i: nat, j: nat, p: string, t: Target)
    requires Run(targets, events, p, t)
    requires i < j < |events| && RefreshedAt(targets, events, i, p) && RefreshedAt(targets, events, j, p)
    ensures events[j].now >= events[i].now + t.minimumRefreshInterval
  {
    LastStays(targets, events, i, j, p, t);
    AlwaysSpaced(targets, events, j, p, t);
  }

  // ----- Late timers before the first refresh -----

  /** A change of `p` at every instant. */
  function Chatter(p: string, n: nat): seq<Event> {
    seq(n, k => Changed(k, {p}))
  }

  function ChatterDeadline(t: Target, now: int): int {
    Max(Min(now + t.debounce, t.maximumLatency), now)
  }

  lemma {:induction false} ChatterEntry(p: string, t: Target, n: nat, k: nat)
    requires k <= n
    ensures At(map[p := t], Chatter(p, n), k, p)
            == if k == 0 then Entry(None, None) else Entry(Some(PendingRefresh(0, ChatterDeadline(t, k - 1))), None)
  {
    if k > 0 {
      ChatterEntry(p, t, n, k - 1);
      EntryMoves(map[p := t], Chatter(p, n), k - 1, p, t);
    }
  }

  /** A provider that was never refreshed has no bound under late timers, however little they are late and
      for every target, those that pass the validation of a watch (positive debounce and interval) included:
      each change makes it due at once, and moves the deadline along. After any time `m` the change at 0 is
      still waiting. Together with `ChangeIsServedInTime` this makes timers on time, or an earlier refresh,
      the exact condition. */
  lemma FirstRefreshCanBePutOff(p: string, t: Target, lateness: nat, m: nat)
    requires lateness > 0
    ensures var targets, events := map[p := t], Chatter(p, m + 1);
      && Run(targets, events, p, t) && Timely(targets, events, p, lateness)
      && Reports(events[0], p) && At(targets, events, 0, p).last.None?
      && (forall j :: 0 <= j <= m ==> !RefreshedAt(targets, events, j, p))
      && (m > t.maximumLatency + lateness ==>
            events[m].now > DueBy(t, At(targets, events, 0, p), events[0].now) + lateness)
  {
    var targets, events := map[p := t], Chatter(p, m + 1);
    forall k | 0 <= k <= m
      ensures At(targets, events, k, p).pending.Some? ==>
        events[k].now <= At(targets, events, k, p).pending.value.deadline + lateness
    {
      ChatterEntry(p, t, m + 1, k);
    }
    ChatterEntry(p, t, m + 1, 0);
  }
}
