/** The single write path for configuration: a change is persisted, published to the
    consumers it affects, and rolled back when a later step fails. Every step that can
    fail is decided by an adversary. */
module ConfigTransaction {
  import opened Numbers
  import opened Sequences
  import opened Wrappers

  type ProviderId = string

  datatype ProviderConfig = ProviderConfig(enabled: bool, settings: map<string, string>)

  datatype Rule = Rule(account: Option<string>, window: Option<string>, thresholds: Option<seq<nat>>, other: string)

  datatype NotificationConfig = NotificationConfig(enabled: bool, thresholds: seq<nat>, rules: seq<Rule>, other: string)

  datatype Config = Config(pollInterval: nat, providers: map<ProviderId, ProviderConfig>,
                           notifications: NotificationConfig)
  {
    predicate Enabled(id: ProviderId) { id in providers && providers[id].enabled }

    function ProviderOrDefault(id: ProviderId): ProviderConfig {
      if id in providers then providers[id] else ProviderConfig(false, map[])
    }
  }

  /** What the registry says about a provider the daemon knows. */
  datatype Descriptor = Descriptor(id: ProviderId, minimumInterval: nat)

  // ------------------------------------------------------- derived consumers

  function EffectiveInterval(config: Config, d: Descriptor): nat { Max(config.pollInterval, d.minimumInterval) }

  /** The enabled providers that are polled at one interval, in registry order. */
  function GroupAt(config: Config, registry: seq<Descriptor>, interval: nat): seq<ProviderId> {
    if registry == [] then []
    else
      var d := registry[|registry| - 1];
      GroupAt(config, registry[..|registry| - 1], interval)
      + (if config.Enabled(d.id) && EffectiveInterval(config, d) == interval then [d.id] else [])
  }

  function Intervals(config: Config, registry: seq<Descriptor>): set<nat> {
    set k | 0 <= k < |registry| && config.Enabled(registry[k].id) :: EffectiveInterval(config, registry[k])
  }

  type PollSchedule = map<nat, seq<ProviderId>>

  function Schedule(config: Config, registry: seq<Descriptor>): PollSchedule {
    map interval | interval in Intervals(config, registry) :: GroupAt(config, registry, interval)
  }

  method FromDescriptors(config: Config, registry: seq<Descriptor>) returns (groups: PollSchedule)
    ensures groups == Schedule(config, registry)
  {
    groups := map[];
    var i := 0;
    while i < |registry|
      invariant 0 <= i <= |registry|
      invariant groups == Schedule(config, registry[..i])
    {
      var d := registry[i];
      ghost var seen := registry[..i];
      assert registry[..i + 1] == seen + [d];
      OneMoreDescriptor(config, seen, d);
      if config.Enabled(d.id) {
        var interval := EffectiveInterval(config, d);
        var members := if interval in groups then groups[interval] else [];
        groups := groups[interval := members + [d.id]];
      }
      i := i + 1;
    }
    assert registry[..|registry|] == registry;
  }

  lemma ScheduleGrows(config: Config, seen: seq<Descriptor>, d: Descriptor)
    ensures Intervals(config, seen + [d])
            == Intervals(config, seen) + (if config.Enabled(d.id) then {EffectiveInterval(config, d)} else {})
    ensures forall interval ::
      (GroupAt(config, seen + [d], interval)
       == GroupAt(config, seen, interval)
          + (if config.Enabled(d.id) && EffectiveInterval(config, d) == interval then [d.id] else []))
  {
    var more := seen + [d];
    assert more[..|seen|] == seen;
    forall interval <- Intervals(config, seen) ensures interval in Intervals(config, more) {
      var k :| 0 <= k < |seen| && config.Enabled(seen[k].id) && EffectiveInterval(config, seen[k]) == interval;
      assert more[k] == seen[k];
    }
    if config.Enabled(d.id) { assert more[|seen|] == d; }
  }

  lemma {:induction false} NoGroup(config: Config, registry: seq<Descriptor>, interval: nat)
    requires interval !in Intervals(config, registry)
    ensures GroupAt(config, registry, interval) == []
  {
    if registry != [] {
      var front := registry[..|registry| - 1];
      assert registry == front + [registry[|registry| - 1]];
      ScheduleGrows(config, front, registry[|registry| - 1]);
      NoGroup(config, front, interval);
    }
  }

  lemma OneMoreDescriptor(config: Config, seen: seq<Descriptor>, d: Descriptor)
    ensures var groups, interval := Schedule(config, seen), EffectiveInterval(config, d);
            Schedule(config, seen + [d]) ==
              if config.Enabled(d.id)
              then groups[interval := (if interval in groups then groups[interval] else []) + [d.id]]
              else groups
  {
    ScheduleGrows(config, seen, d);
    hide EffectiveInterval;
    var interval := EffectiveInterval(config, d);
    if interval !in Intervals(config, seen) { NoGroup(config, seen, interval); }
    var groups, more := Schedule(config, seen), Schedule(config, seen + [d]);
    assert more.Keys == Intervals(config, seen + [d]) && groups.Keys == Intervals(config, seen);
    forall i <- more | !(config.Enabled(d.id) && i == interval) ensures i in groups && more[i] == groups[i] {
      assert GroupAt(config, seen + [d], i) == GroupAt(config, seen, i) + [];
    }
  }

  /** The interval at which an enabled provider is polled: the larger of the configured one and its own. */
  predicate PolledAt(config: Config, d: Descriptor, interval: nat) {
    && d.id in config.providers && config.providers[d.id].enabled
    && interval >= config.pollInterval && interval >= d.minimumInterval
    && (interval == config.pollInterval || interval == d.minimumInterval)
  }

  function IdOf(d: Descriptor): ProviderId { d.id }

  lemma PolledNext(config: Config, registry: seq<Descriptor>, interval: nat)
    requires registry != []
    ensures var n := |registry| - 1;
            GroupAt(config, registry, interval)
            == if PolledAt(config, registry[n], interval)
               then GroupAt(config, registry[..n], interval) + [IdOf(registry[n])]
               else GroupAt(config, registry[..n], interval)
  {
  }

  /** The group at an interval: exactly the providers polled then, in registry order, each as often as the
      registry lists it. */
  lemma {:induction false} GroupExactly(config: Config, registry: seq<Descriptor>, interval: nat) returns (picks: seq<nat>)
    ensures Picks(registry, GroupAt(config, registry, interval), picks, IdOf)
    ensures forall k: nat :: k in picks <==> k < |registry| && PolledAt(config, registry[k], interval)
  {
    if registry == [] {
      picks := [];
    } else {
      var n := |registry| - 1;
      assert registry == registry[..n] + [registry[n]];
      var rest := GroupExactly(config, registry[..n], interval);
      PickedOneMore(registry[..n], GroupAt(config, registry[..n], interval), rest, IdOf, registry[n]);
      PolledNext(config, registry, interval);
      hide Picks;
      hide GroupAt;
      hide PolledAt;
      picks := if PolledAt(config, registry[n], interval) then rest + [n] else rest;
    }
  }

  /** A provider is polled exactly when it is known and enabled, at the larger of the two
      intervals. */
  lemma {:induction false} PolledExactlyWhenEnabled(config: Config, registry: seq<Descriptor>, id: ProviderId,
      interval: nat)
    ensures (interval in Schedule(config, registry) && id in Schedule(config, registry)[interval])
            <==> exists d :: d in registry && d.id == id && PolledAt(config, d, interval)
  {
    var picks := GroupExactly(config, registry, interval);
    var group := GroupAt(config, registry, interval);
    if exists d :: d in registry && d.id == id && PolledAt(config, d, interval) {
      var d :| d in registry && d.id == id && PolledAt(config, d, interval);
      var k :| 0 <= k < |registry| && registry[k] == d;
      assert EffectiveInterval(config, registry[k]) == interval;
      assert interval in Intervals(config, registry);
      assert k in picks;
      var i :| 0 <= i < |picks| && picks[i] == k;
      assert group[i] == id;
    }
    if interval in Schedule(config, registry) && id in group {
      var i :| 0 <= i < |group| && group[i] == id;
      assert picks[i] in picks;
      assert PolledAt(config, registry[picks[i]], interval);
    }
  }

  type Collectors = map<ProviderId, ProviderConfig>

  /** Collectors are built for every known provider from its settings. */
  function CollectorsFor(config: Config, registry: seq<Descriptor>): Collectors {
    map d <- registry :: d.id := config.ProviderOrDefault(d.id)
  }

  /** Local logs are watched for the enabled providers. */
  function LocalTargets(config: Config, registry: seq<Descriptor>): map<ProviderId, ProviderConfig> {
    map d <- registry | config.Enabled(d.id) :: d.id := config.providers[d.id]
  }

  /** Collectors exist for exactly the known providers, with their own settings, or disabled and empty ones;
      watches for exactly the known ones that are enabled, with theirs. */
  lemma ConsumersExactly(config: Config, registry: seq<Descriptor>, id: ProviderId)
    ensures var known := exists d :: d in registry && d.id == id;
            var own := if id in config.providers then Some(config.providers[id]) else None;
            var collectors, targets := CollectorsFor(config, registry), LocalTargets(config, registry);
            && (id in collectors <==> known)
            && (known ==> collectors[id] == if own.Some? then own.value else ProviderConfig(false, map[]))
            && (id in targets <==> known && own.Some? && own.value.enabled)
            && (id in targets ==> targets[id] == own.value)
  {
  }

  /** Everything that is derived from the poll interval and the providers. */
  datatype Derived = Derived(collectors: Collectors, schedule: PollSchedule, targets: map<ProviderId, ProviderConfig>)

  function Derive(config: Config, registry: seq<Descriptor>): Derived {
    Derived(CollectorsFor(config, registry), Schedule(config, registry), LocalTargets(config, registry))
  }

  // --------------------------------------------------------------- a change

  datatype ChangeSet = ChangeSet(pollSchedule: bool, providers: bool, notifications: bool)
  {
    predicate Any() { pollSchedule || providers || notifications }
  }

  function Between(previous: Config, updated: Config): ChangeSet {
    ChangeSet(previous.pollInterval != updated.pollInterval || previous.providers != updated.providers,
              previous.providers != updated.providers,
              previous.notifications != updated.notifications)
  }

  /** Writing the file: it may fail before the new file is in place, or after. */
  datatype Persist = Written | FailedBefore | FailedAfter

  datatype Faults = Faults(previousBuilds: bool, updatedBuilds: bool, persist: Persist,
                           clearWindows: bool, clearPending: bool, commit: bool, rollbackPersist: Persist)

  datatype Change = Change(mutation: Config -> Option<Config>, faults: Faults)

  datatype Live = Live(config: Config, file: Config, derived: Derived, scheduleSignals: nat,
                       notifications: NotificationConfig, windowState: set<string>, outbox: seq<string>)

  function Persisted(live: Live, config: Config, persist: Persist): Live {
    if persist.FailedBefore? then live else live.(file := config)
  }

  /** Publishes `config`, whose derived values are `next`, to the consumers that changed. */
  function Install(live: Live, config: Config, changes: ChangeSet, next: Derived): Live {
    var current := live.derived;
    live.(
      config := config,
      derived := Derived(if changes.providers then next.collectors else current.collectors,
                         if changes.pollSchedule then next.schedule else current.schedule,
                         if changes.providers then next.targets else current.targets),
      scheduleSignals := live.scheduleSignals + (if changes.pollSchedule && current.schedule != next.schedule then 1 else 0))
  }

  type ThresholdRule = (Option<string>, Option<string>, seq<nat>)

  /** The accounts, windows and thresholds of the rules that set thresholds. */
  function ThresholdRules(rules: seq<Rule>): seq<ThresholdRule> {
    if rules == [] then []
    else
      var last := rules[|rules| - 1];
      ThresholdRules(rules[..|rules| - 1])
      + (if last.thresholds.Some? then [(last.account, last.window, last.thresholds.value)] else [])
  }

  /** The stored alert state is meaningless under other thresholds, or after a pause. */
  predicate ClearsWindows(previous: NotificationConfig, updated: NotificationConfig) {
    || (!previous.enabled && updated.enabled)
    || previous.thresholds != updated.thresholds
    || ThresholdRules(previous.rules) != ThresholdRules(updated.rules)
  }

  predicate ClearsPending(previous: NotificationConfig, updated: NotificationConfig) {
    previous.enabled && !updated.enabled
  }

  predicate EffectsFail(previous: NotificationConfig, updated: NotificationConfig, faults: Faults) {
    previous != updated && ((ClearsWindows(previous, updated) && !faults.clearWindows)
                            || (ClearsPending(previous, updated) && !faults.clearPending))
  }

  function Effects(live: Live, previous: NotificationConfig, updated: NotificationConfig, faults: Faults): Live {
    if previous == updated then live
    else if ClearsWindows(previous, updated) && !faults.clearWindows then live
    else
      var cleared := if ClearsWindows(previous, updated) then live.(windowState := {}) else live;
      if ClearsPending(previous, updated) && !faults.clearPending then cleared
      else
        (if ClearsPending(previous, updated) then cleared.(outbox := []) else cleared).(notifications := updated)
  }

  function Rollback(live: Live, previous: Config, changes: ChangeSet, persist: Persist, derived: Derived): Live {
    var restored := Persisted(live, previous, persist);
    if !persist.Written? then restored
    else
      var installed := Install(restored, previous, changes, derived);
      if changes.notifications then installed.(notifications := previous.notifications) else installed
  }

  datatype Outcome = Unchanged | Refused | Committed | RolledBack

  /** The state and the outcome after one change. `Refused`: the change stopped before it
      was published. */
  function Commit(live: Live, change: Change, registry: seq<Descriptor>): (Live, Outcome) {
    var previous, faults := live.config, change.faults;
    var mutated := change.mutation(previous);
    if mutated.None? then (live, Refused)
    else
      var updated := mutated.value;
      var changes := Between(previous, updated);
      if !changes.Any() then (live, if faults.commit then Unchanged else Refused)
      else if changes.providers && !(faults.previousBuilds && faults.updatedBuilds) then (live, Refused)
      else
        var written := Persisted(live, updated, faults.persist);
        if !faults.persist.Written? then (written, Refused)
        else
          var installed := Install(written, updated, changes, Derive(updated, registry));
          var notified := Effects(installed, previous.notifications, updated.notifications, faults);
          if EffectsFail(previous.notifications, updated.notifications, faults) || !faults.commit then
            (Rollback(notified, previous, changes, faults.rollbackPersist, Derive(previous, registry)), RolledBack)
          else (notified, Committed)
  }

  // ----------------------------------------------------- the imperative form

  class DaemonRuntime {
    const registry: seq<Descriptor>
    var config: Config
    var file: Config
    var collectors: Collectors
    var schedule: PollSchedule
    var scheduleSignals: nat
    var targets: map<ProviderId, ProviderConfig>
    var notifications: NotificationConfig
    var windowState: set<string>
    var outbox: seq<string>

    function State(): Live reads this {
      Live(config, file, Derived(collectors, schedule, targets), scheduleSignals, notifications, windowState, outbox)
    }

    constructor (config: Config, registry: seq<Descriptor>)
      ensures this.registry == registry && this.config == config && this.file == config
      ensures Coherent(State(), registry)
    {
      this.registry := registry;
      this.config, this.file, this.notifications := config, config, config.notifications;
      this.collectors := CollectorsFor(config, registry);
      this.targets := LocalTargets(config, registry);
      this.scheduleSignals, this.windowState, this.outbox := 0, {}, [];
      var groups := FromDescriptors(config, registry);
      this.schedule := groups;
    }

    method PersistConfig(config: Config, persist: Persist) returns (ok: bool)
      modifies this`file
      ensures ok == persist.Written? && file == Persisted(old(State()), config, persist).file
    {
      if !persist.FailedBefore? { file := config; }
      return persist.Written?;
    }

    method InstallConfig(config: Config, built: Option<Collectors>, changes: ChangeSet)
      requires built == if changes.providers then Some(CollectorsFor(config, registry)) else None
      modifies this
      ensures State() == Install(old(State()), config, changes, Derive(config, registry))
    {
      if changes.providers { targets := LocalTargets(config, registry); }
      this.config := config;
      if built.Some? { collectors := built.value; }
      if changes.pollSchedule {
        var next := FromDescriptors(config, registry);
        if schedule != next {
          schedule := next;
          scheduleSignals := scheduleSignals + 1;
        }
      }
    }

    method ApplyNotificationEffects(previous: NotificationConfig, updated: NotificationConfig, faults: Faults)
      returns (ok: bool)
      modifies this
      ensures State() == Effects(old(State()), previous, updated, faults)
      ensures ok == !EffectsFail(previous, updated, faults)
    {
      if previous == updated { return true; }
      if ClearsWindows(previous, updated) {
        if !faults.clearWindows { return false; }
        windowState := {};
      }
      if ClearsPending(previous, updated) {
        if !faults.clearPending { return false; }
        outbox := [];
      }
      notifications := updated;
      return true;
    }

    method RollbackConfigChange(previous: Config, built: Option<Collectors>, changes: ChangeSet, persist: Persist)
      requires built == if changes.providers then Some(CollectorsFor(previous, registry)) else None
      modifies this
      ensures State() == Rollback(old(State()), previous, changes, persist, Derive(previous, registry))
    {
      var ok := PersistConfig(previous, persist);
      if ok {
        InstallConfig(previous, built, changes);
        if changes.notifications { notifications := previous.notifications; }
      }
    }

    method CommitConfigChange(change: Change) returns (outcome: Outcome)
      modifies this
      ensures (State(), outcome) == Commit(old(State()), change, registry)
    {
      var previous, faults := config, change.faults;
      var mutated := change.mutation(previous);
      if mutated.None? { return Refused; }
      var updated := mutated.value;
      var changes := Between(previous, updated);
      if !changes.Any() {
        return if faults.commit then Unchanged else Refused;
      }
      var previousCollectors, updatedCollectors := None, None;
      if changes.providers {
        if !faults.previousBuilds || !faults.updatedBuilds { return Refused; }
        previousCollectors := Some(CollectorsFor(previous, registry));
        updatedCollectors := Some(CollectorsFor(updated, registry));
      }
      var persisted := PersistConfig(updated, faults.persist);
      if !persisted { return Refused; }
      InstallConfig(updated, updatedCollectors, changes);
      var applied := ApplyNotificationEffects(previous.notifications, updated.notifications, faults);
      if !applied || !faults.commit {
        RollbackConfigChange(previous, previousCollectors, changes, faults.rollbackPersist);
        return RolledBack;
      }
      return Committed;
    }
  }

  // ---------------------------------------------------------------- theorems

  /** Memory and the four consumers that follow it describe one configuration. */
  ghost predicate LiveCoherent(live: Live, registry: seq<Descriptor>) {
    live.derived == Derive(live.config, registry) && live.notifications == live.config.notifications
  }

  ghost predicate Coherent(live: Live, registry: seq<Descriptor>) {
    LiveCoherent(live, registry) && live.file == live.config
  }

  /** Publishing a configuration to every consumer, whatever changed. */
  function RepublishAll(live: Live, config: Config, derived: Derived): Live {
    live.(config := config, file := config, derived := derived, notifications := config.notifications)
  }

  /** `a` and `b` differ at most in the stored alert state and in how often the schedule
      was signalled. */
  ghost predicate SameUpToStorage(a: Live, b: Live) {
    a.(scheduleSignals := b.scheduleSignals, windowState := b.windowState, outbox := b.outbox) == b
  }

  predicate Reaches(live: Live, change: Change) {
    var mutated := change.mutation(live.config);
    && mutated.Some?
    && var changes := Between(live.config, mutated.value);
       changes.Any() && (changes.providers ==> change.faults.previousBuilds && change.faults.updatedBuilds)
  }

  /** The rollback of a failed notification update cannot restore the file. */
  predicate Stranded(live: Live, change: Change) {
    && Reaches(live, change) && change.faults.persist.Written?
    && EffectsFail(live.config.notifications, change.mutation(live.config).value.notifications, change.faults)
    && !change.faults.rollbackPersist.Written?
  }

  /** A write that fails once the new file is in place is reported as a failure and leaves
      the file ahead of the memory, or behind it after a rollback. */
  predicate FileDrifts(live: Live, change: Change) {
    && Reaches(live, change)
    && (change.faults.persist.FailedAfter?
        || (change.faults.persist.Written? && change.faults.rollbackPersist.FailedAfter?
            && (EffectsFail(live.config.notifications, change.mutation(live.config).value.notifications, change.faults)
                || !change.faults.commit)))
  }

  /** What a change set does not name is the same under both configurations. */
  predicate Agree(changes: ChangeSet, a: Derived, b: Derived) {
    && (!changes.providers ==> a.collectors == b.collectors && a.targets == b.targets)
    && (!changes.pollSchedule ==> a.schedule == b.schedule)
  }

  lemma DerivedAgree(previous: Config, updated: Config, registry: seq<Descriptor>)
    ensures Agree(Between(previous, updated), Derive(previous, registry), Derive(updated, registry))
  {
    var changes := Between(previous, updated);
    if !changes.providers {
      assert CollectorsFor(updated, registry) == CollectorsFor(previous, registry);
      assert LocalTargets(updated, registry) == LocalTargets(previous, registry);
    }
    if !changes.pollSchedule { SameSchedule(previous, updated, registry); }
  }

  /** Publishing only what the change set names is publishing everything, and the schedule
      is signalled only when it differs. */
  lemma SelectivePublishIsFullPublish(live: Live, updated: Config, registry: seq<Descriptor>)
    requires LiveCoherent(live, registry)
    ensures var next := Derive(updated, registry);
            var installed := Install(live, updated, Between(live.config, updated), next);
            && installed == live.(config := updated, derived := next, scheduleSignals := installed.scheduleSignals)
            && installed.scheduleSignals - live.scheduleSignals == (if next.schedule != live.derived.schedule then 1 else 0)
  {
    DerivedAgree(live.config, updated, registry);
  }

  lemma SameSchedule(a: Config, b: Config, registry: seq<Descriptor>)
    requires a.pollInterval == b.pollInterval && a.providers == b.providers
    ensures Schedule(a, registry) == Schedule(b, registry)
  {
    assert Intervals(a, registry) == Intervals(b, registry);
    forall interval ensures GroupAt(a, registry, interval) == GroupAt(b, registry, interval) {
      SameGroup(a, b, registry, interval);
    }
  }

  lemma {:induction false} SameGroup(a: Config, b: Config, registry: seq<Descriptor>, interval: nat)
    requires a.pollInterval == b.pollInterval && a.providers == b.providers
    ensures GroupAt(a, registry, interval) == GroupAt(b, registry, interval)
  {
    if registry != [] { SameGroup(a, b, registry[..|registry| - 1], interval); }
  }

  /** What a change has published when its own steps are over and no rollback has run. */
  function Published(live: Live, updated: Config, faults: Faults, next: Derived): Live {
    var installed := Install(live.(file := updated), updated, Between(live.config, updated), next);
    Effects(installed, live.config.notifications, updated.notifications, faults)
  }

  lemma PublishedState(live: Live, updated: Config, faults: Faults, next: Derived)
    requires live.notifications == live.config.notifications
    requires Agree(Between(live.config, updated), live.derived, next)
    ensures var failed := EffectsFail(live.config.notifications, updated.notifications, faults);
            && SameUpToStorage(Published(live, updated, faults, next),
                               RepublishAll(live, updated, next).(
                                 notifications := if failed then live.notifications else updated.notifications))
            && (failed ==> live.notifications != updated.notifications)
  {
  }

  /** A rollback that writes the file restores everything. */
  lemma RollbackRestores(live: Live, updated: Config, faults: Faults, next: Derived)
    requires live.notifications == live.config.notifications && live.file == live.config
    requires Agree(Between(live.config, updated), live.derived, next)
    ensures SameUpToStorage(Rollback(Published(live, updated, faults, next), live.config,
                                     Between(live.config, updated), Written, live.derived), live)
  {
    PublishedState(live, updated, faults, next);
  }

  lemma CommitShape(live: Live, change: Change, registry: seq<Descriptor>)
    requires Reaches(live, change) && change.faults.persist.Written?
    ensures var updated, faults := change.mutation(live.config).value, change.faults;
            var published := Published(live, updated, faults, Derive(updated, registry));
            Commit(live, change, registry) ==
            (if EffectsFail(live.config.notifications, updated.notifications, faults) || !faults.commit
             then (Rollback(published, live.config, Between(live.config, updated), faults.rollbackPersist,
                            Derive(live.config, registry)), RolledBack)
             else (published, Committed))
  {
  }

  lemma NotReached(live: Live, change: Change, registry: seq<Descriptor>)
    requires !(Reaches(live, change) && change.faults.persist.Written?)
    ensures var (after, outcome) := Commit(live, change, registry);
            && !outcome.Committed?
            && after == live.(file := if Reaches(live, change) && change.faults.persist.FailedAfter?
                                      then change.mutation(live.config).value else live.file)
  {
  }

  /** Where a published change ends up, as a function of what fails after it. */
  lemma AfterPublishing(live: Live, updated: Config, faults: Faults, next: Derived)
    requires live.notifications == live.config.notifications && live.file == live.config
    requires Agree(Between(live.config, updated), live.derived, next)
    ensures var failed := EffectsFail(live.config.notifications, updated.notifications, faults);
            var published := Published(live, updated, faults, next);
            var after := if failed || !faults.commit
                         then Rollback(published, live.config, Between(live.config, updated),
                                       faults.rollbackPersist, live.derived)
                         else published;
            if (failed || !faults.commit) && faults.rollbackPersist.Written? then SameUpToStorage(after, live)
            else
              && after.config == updated && after.derived == next
              && (after.notifications == updated.notifications <==> !failed)
              && after.file == (if (failed || !faults.commit) && faults.rollbackPersist.FailedAfter?
                                then live.config else updated)
  {
    PublishedState(live, updated, faults, next);
    RollbackRestores(live, updated, faults, next);
  }

  /** The change is published and then fails. */
  predicate FailsLate(live: Live, change: Change) {
    && Reaches(live, change) && change.faults.persist.Written?
    && (EffectsFail(live.config.notifications, change.mutation(live.config).value.notifications, change.faults)
        || !change.faults.commit)
  }

  /** The failed change stays in memory: the rollback cannot write the file. */
  predicate StaysLive(live: Live, change: Change) {
    FailsLate(live, change) && !change.faults.rollbackPersist.Written?
  }

  /** The failed change stays in the file: its own write fails after the new file is in place, or the
      rollback's fails before the old one is back. */
  predicate StaysInFile(live: Live, change: Change) {
    || (Reaches(live, change) && change.faults.persist.FailedAfter?)
    || (FailsLate(live, change) && change.faults.rollbackPersist.FailedBefore?)
  }

  /** A committed change is in force everywhere. After any other outcome the previous configuration is in
      force: in memory and its consumers unless the change stays live, in the file unless it stays there,
      and everywhere exactly when neither happens. */
  lemma {:induction false} ChangeIsAllOrNothing(live: Live, change: Change, registry: seq<Descriptor>)
    requires Coherent(live, registry)
    ensures var (after, outcome) := Commit(live, change, registry);
      if outcome.Committed? then
        var updated := change.mutation(live.config).value;
        SameUpToStorage(after, RepublishAll(live, updated, Derive(updated, registry)))
      else
        && (after.config == live.config && after.derived == live.derived && after.notifications == live.notifications
            <==> !StaysLive(live, change))
        && (after.file == live.file <==> !StaysInFile(live, change))
        && (SameUpToStorage(after, live) <==> !StaysLive(live, change) && !StaysInFile(live, change))
  {
    if Reaches(live, change) && change.faults.persist.Written? {
      var updated := change.mutation(live.config).value;
      CommitShape(live, change, registry);
      DerivedAgree(live.config, updated, registry);
      PublishedState(live, updated, change.faults, Derive(updated, registry));
      AfterPublishing(live, updated, change.faults, Derive(updated, registry));
    } else {
      NotReached(live, change, registry);
    }
  }

  /** A new poll interval that fails late, with a rollback that cannot write: reported as rolled back, and
      in force all the same. */
  lemma RolledBackChangeCanStay(live: Live, interval: nat, registry: seq<Descriptor>)
    requires Coherent(live, registry) && interval != live.config.pollInterval
    ensures var updated := live.config.(pollInterval := interval);
            var change := Change((_: Config) => Some(updated), Faults(true, true, Written, true, true, false, FailedBefore));
            var (after, outcome) := Commit(live, change, registry);
            outcome == RolledBack && after.config == updated && after.file == updated
  {
    var updated := live.config.(pollInterval := interval);
    var change := Change((_: Config) => Some(updated), Faults(true, true, Written, true, true, false, FailedBefore));
    CommitShape(live, change, registry);
  }

  /** After one change the live consumers agree unless the notification update failed and
      its rollback could not write the file; the file agrees with memory unless a write
      failed after the new file was in place. Both conditions are exact. */
  lemma CoherenceExactly(live: Live, change: Change, registry: seq<Descriptor>)
    requires Coherent(live, registry)
    ensures var after := Commit(live, change, registry).0;
            && (LiveCoherent(after, registry) <==> !Stranded(live, change))
            && (after.file == after.config <==> !FileDrifts(live, change))
  {
    if Reaches(live, change) && change.faults.persist.Written? {
      var updated := change.mutation(live.config).value;
      CommitShape(live, change, registry);
      DerivedAgree(live.config, updated, registry);
      AfterPublishing(live, updated, change.faults, Derive(updated, registry));
    } else {
      NotReached(live, change, registry);
    }
  }

  /** A new poll interval whose write fails after the file is in place: it is refused, and the file holds
      it all the same. */
  lemma RefusedChangeCanReachTheFile(live: Live, interval: nat, registry: seq<Descriptor>)
    requires Coherent(live, registry) && interval != live.config.pollInterval
    ensures var updated := live.config.(pollInterval := interval);
            var change := Change((_: Config) => Some(updated), Faults(true, true, FailedAfter, true, true, true, Written));
            var (after, outcome) := Commit(live, change, registry);
            outcome == Refused && after.config == live.config && after.file == updated
  {
    var updated := live.config.(pollInterval := interval);
    NotReached(live, Change((_: Config) => Some(updated), Faults(true, true, FailedAfter, true, true, true, Written)), registry);
  }

  // ------------------------------------------------- the stored alert state

  function ThresholdsOf(rule: Rule): ThresholdRule {
    (rule.account, rule.window, if rule.thresholds.Some? then rule.thresholds.value else [])
  }

  /** The threshold rules are, in order, exactly the rules that set thresholds. */
  lemma {:induction false} ThresholdRulesExactly(rules: seq<Rule>) returns (picks: seq<nat>)
    ensures Picks(rules, ThresholdRules(rules), picks, ThresholdsOf)
    ensures forall k: nat :: k in picks <==> k < |rules| && rules[k].thresholds.Some?
  {
    if rules == [] {
      picks := [];
    } else {
      var n := |rules| - 1;
      assert rules == rules[..n] + [rules[n]];
      var rest := ThresholdRulesExactly(rules[..n]);
      PickedOneMore(rules[..n], ThresholdRules(rules[..n]), rest, ThresholdsOf, rules[n]);
      hide Picks;
      picks := if rules[n].thresholds.Some? then rest + [n] else rest;
    }
  }

  /** What every change comes to, as a function of what it changes and of what fails, and what becomes of the
      marks of alerted thresholds and of the alerts not yet delivered. A change that reaches the consumers
      forgets the marks exactly when they lose their meaning, because alerts were switched on again or
      thresholds changed, and drops the alerts exactly when alerts were switched off, as far as the storage
      could; a rollback brings neither back. Any other change leaves both alone. */
  lemma OutcomeExactly(live: Live, change: Change, registry: seq<Descriptor>)
    ensures var (after, outcome) := Commit(live, change, registry);
            var faults, mutated := change.faults, change.mutation(live.config);
            var updated := if mutated.Some? then mutated.value else live.config;
            var was, now := live.config.notifications, updated.notifications;
            var written := && mutated.Some? && updated != live.config && faults.persist.Written?
                           && (updated.providers != live.config.providers ==> faults.previousBuilds && faults.updatedBuilds);
            var forgets := || (now.enabled && !was.enabled) || now.thresholds != was.thresholds
                           || ThresholdRules(now.rules) != ThresholdRules(was.rules);
            var silences := was.enabled && !now.enabled;
            var works := && (forgets ==> faults.clearWindows) && (silences ==> faults.clearPending) && faults.commit;
            && (outcome.Unchanged? <==> mutated == Some(live.config) && faults.commit)
            && (outcome.Committed? <==> written && works)
            && (outcome.RolledBack? <==> written && !works)
            && (outcome.Unchanged? ==> after == live)
            && after.windowState == (if written && forgets && faults.clearWindows then {} else live.windowState)
            && after.outbox == (if && written && silences && faults.clearPending
                                   && (forgets ==> faults.clearWindows) then [] else live.outbox)
  {
  }

  ghost function Run(live: Live, changes: seq<Change>, registry: seq<Descriptor>): Live
    decreases |changes|
  {
    if changes == [] then live else Run(Commit(live, changes[0], registry).0, changes[1..], registry)
  }

  ghost predicate NeverDrifts(live: Live, changes: seq<Change>, registry: seq<Descriptor>)
    decreases |changes|
  {
    changes == [] ||
    (!Stranded(live, changes[0]) && !FileDrifts(live, changes[0])
     && NeverDrifts(Commit(live, changes[0], registry).0, changes[1..], registry))
  }

  /** Any run of changes in which no file write fails half-way and no rollback is stranded
      ends with the file, the memory and all consumers on one configuration. */
  lemma {:induction false} RunIsCoherent(live: Live, changes: seq<Change>, registry: seq<Descriptor>)
    requires Coherent(live, registry) && NeverDrifts(live, changes, registry)
    ensures Coherent(Run(live, changes, registry), registry)
    decreases |changes|
  {
    if changes != [] {
      CoherenceExactly(live, changes[0], registry);
      RunIsCoherent(Commit(live, changes[0], registry).0, changes[1..], registry);
    }
  }
}
